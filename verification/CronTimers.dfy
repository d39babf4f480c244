/** Runs of the daemon: updates interleaved with timers that expire and handlers that fire. */
module CronTimers {
  import opened CronText
  import opened CronManager
  import opened CronCommands

  /** A started job, with the entries of the crons file that had last been read by then. */
  datatype Spawn = Spawn(job: string, read: set<Entry>)

  datatype Daemon = Daemon(state: State, read: set<Entry>, spawned: seq<Spawn>)

  const START := Daemon(INITIAL, {}, [])

  /** Update: the file is read with this text and every expression in it is valid.
      Expire: a pending wait runs out, and its handler joins the queue of the io_context.
      Fire: the next queued handler runs, starts its job and arms its timer again. */
  datatype Step = Update(text: string) | Expire(timer: nat) | Fire

  ghost predicate Takes(d: Daemon, step: Step, d': Daemon)
  {
    match step
    case Update(text) =>
      Reconciled(d.state, d'.state, Parse(text)) && d'.read == Parse(text) && d'.spawned == d.spawned
    case Expire(t) =>
      && t in d.state.waiting
      && d' == d.(state := d.state.(waiting := d.state.waiting - {t}, ready := d.state.ready + [t]))
    case Fire =>
      && d.state.ready != [] && d.state.ready[0] in d.state.callbacks
      && var t := d.state.ready[0];
      && d'.state == d.state.(ready := d.state.ready[1..], waiting := d.state.waiting + {t})
      && d'.read == d.read && d'.spawned == d.spawned + [Spawn(d.state.callbacks[t], d.read)]
  }

  /** How many waits a timer has outstanding: pending, or expired with the handler still queued. */
  function Outstanding(s: State, t: nat): nat
  {
    (if t in s.waiting then 1 else 0) + multiset(s.ready)[t]
  }

  ghost predicate Live(s: State, t: nat) { exists e :: e in s.timers && s.timers[e] == t }

  /** Every entry has its own timer, which calls back with its job. */
  ghost predicate Owned(s: State)
  {
    && (forall e :: e in s.timers ==> s.timers[e] in s.callbacks && s.callbacks[s.timers[e]] == e.job)
    && (forall e, f :: e in s.timers && f in s.timers && s.timers[e] == s.timers[f] ==> e == f)
    && (forall t :: t in s.waiting || t in s.ready ==> t < s.next)
  }

  /** Every entry of the last file read has exactly one outstanding wait; no other timer has any. */
  ghost predicate Safe(d: Daemon)
  {
    && Bounded(d.state) && Owned(d.state) && d.state.timers.Keys == d.read
    && (forall e :: e in d.state.timers ==> Outstanding(d.state, d.state.timers[e]) == 1)
    && (forall t :: Outstanding(d.state, t) > 0 ==> Live(d.state, t))
  }

  /** Every started job belonged to an entry of the file last read. */
  ghost predicate SpawnsListed(d: Daemon)
  {
    forall sp :: sp in d.spawned ==> exists e :: e in sp.read && e.job == sp.job
  }

  /** The update comes too late for some entry it removes: its timer has expired already, and
      cancelling cannot take the queued handler back. */
  ghost predicate Late(s: State, goal: set<Entry>)
  {
    exists t :: t in s.ready && t in Vanished(s, goal)
  }

  lemma StartSafe()
    ensures Safe(START) && SpawnsListed(START)
  {
  }

  lemma ExpireSafe(d: Daemon, t: nat, d': Daemon)
    requires Safe(d) && Takes(d, Expire(t), d')
    ensures Safe(d')
  {
    forall u ensures Outstanding(d'.state, u) == Outstanding(d.state, u) {}
    SameOutstanding(d, d');
  }

  lemma FireSafe(d: Daemon, d': Daemon)
    requires Safe(d) && SpawnsListed(d) && Takes(d, Fire, d')
    ensures Safe(d') && SpawnsListed(d')
  {
    var t := d.state.ready[0];
    assert d.state.ready == [t] + d.state.ready[1..];
    assert Outstanding(d.state, t) > 0 && Live(d.state, t);
    var e :| e in d.state.timers && d.state.timers[e] == t;
    assert e in d.read && e.job == d.state.callbacks[t];
    forall u ensures Outstanding(d'.state, u) == Outstanding(d.state, u) {
      FireOutstanding(d, d', u);
    }
    SameOutstanding(d, d');
  }

  lemma FireOutstanding(d: Daemon, d': Daemon, u: nat)
    requires Safe(d) && Takes(d, Fire, d')
    ensures Outstanding(d'.state, u) == Outstanding(d.state, u)
  {
    var t := d.state.ready[0];
    assert d.state.ready == [t] + d.state.ready[1..];
    assert Outstanding(d.state, t) > 0 && Live(d.state, t);
    assert Outstanding(d.state, t) == 1;
  }

  /** Safety depends on the timers, the callbacks and the number of outstanding waits only. */
  lemma SameOutstanding(d: Daemon, d': Daemon)
    requires Safe(d) && d'.read == d.read && d'.state.timers == d.state.timers
    requires d'.state.callbacks == d.state.callbacks && d'.state.next == d.state.next
    requires forall u :: Outstanding(d'.state, u) == Outstanding(d.state, u)
    ensures Safe(d')
  {
    forall u: nat | Outstanding(d'.state, u) > 0 ensures Live(d'.state, u) && u < d'.state.next {
      assert Outstanding(d.state, u) > 0 && Live(d.state, u);
    }
    forall u | u in d'.state.waiting || u in d'.state.ready ensures u < d'.state.next {
      assert Outstanding(d'.state, u) > 0;
    }
  }

  /** An update keeps the daemon safe exactly when no removed entry has an expired wait queued. */
  lemma UpdateSafeExactly(d: Daemon, text: string, d': Daemon)
    requires Safe(d) && Takes(d, Update(text), d')
    ensures Safe(d') <==> !Late(d.state, Parse(text))
  {
    var goal := Parse(text);
    UpdateOwned(d, text, d');
    if Late(d.state, goal) {
      var t :| t in d.state.ready && t in Vanished(d.state, goal);
      VanishedNotLive(d, text, d', t);
      assert Outstanding(d'.state, t) > 0;
    } else {
      forall e | e in goal ensures Outstanding(d'.state, d'.state.timers[e]) == 1 {
        UpdateEntry(d, text, d', e);
      }
      forall t | Outstanding(d'.state, t) > 0 ensures Live(d'.state, t) {
        UpdateLive(d, text, d', t);
      }
    }
  }

  lemma UpdateOwned(d: Daemon, text: string, d': Daemon)
    requires Safe(d) && Takes(d, Update(text), d')
    ensures Bounded(d'.state) && Owned(d'.state)
  {
    ReconciledBounded(d.state, d'.state, Parse(text));
  }

  lemma VanishedNotLive(d: Daemon, text: string, d': Daemon, t: nat)
    requires Safe(d) && Takes(d, Update(text), d') && t in Vanished(d.state, Parse(text))
    ensures !Live(d'.state, t)
  {
    var e :| e in d.state.timers && e !in Parse(text) && d.state.timers[e] == t;
    forall f | f in d'.state.timers ensures d'.state.timers[f] != t {
      if f in d.state.timers { assert d'.state.timers[f] == d.state.timers[f]; }
    }
  }

  lemma UpdateEntry(d: Daemon, text: string, d': Daemon, e: Entry)
    requires Safe(d) && Takes(d, Update(text), d') && e in Parse(text)
    ensures Outstanding(d'.state, d'.state.timers[e]) == 1
  {
    var t := d'.state.timers[e];
    if e in d.state.timers {
      assert t == d.state.timers[e] && t !in Vanished(d.state, Parse(text));
      assert Outstanding(d.state, t) == 1;
    } else {
      assert t !in d.state.ready;
    }
  }

  /** When the update is not late, whatever timer is still outstanding has an entry. */
  lemma UpdateLive(d: Daemon, text: string, d': Daemon, t: nat)
    requires Safe(d) && Takes(d, Update(text), d') && !Late(d.state, Parse(text))
    requires Outstanding(d'.state, t) > 0
    ensures Live(d'.state, t)
  {
    var goal := Parse(text);
    if t < d.state.next {
      assert t in d.state.waiting || t in d.state.ready;
      assert Outstanding(d.state, t) > 0 && Live(d.state, t);
      var e :| e in d.state.timers && d.state.timers[e] == t;
      assert t !in Vanished(d.state, goal);
      assert e in goal && d'.state.timers[e] == t;
    } else {
      NewTimerLive(d.state, d'.state, goal, t);
    }
  }

  /** Fresh serial numbers are all in use: there are as many as new entries, which differ. */
  lemma NewTimerLive(s: State, s': State, goal: set<Entry>, t: nat)
    requires Reconciled(s, s', goal) && s.next <= t < s'.next
    ensures Live(s', t)
  {
    var added := goal - s.timers.Keys;
    if forall e :: e in added ==> s'.timers[e] != t {
      PigeonHole(added, s', s.next, s'.next, t);
    }
  }

  /** Distinct numbers from a range that miss one of it are fewer than the range is long. */
  lemma {:induction false} PigeonHole(es: set<Entry>, s: State, lo: nat, hi: nat, t: nat)
    requires es <= s.timers.Keys && lo <= t < hi
    requires forall e :: e in es ==> lo <= s.timers[e] < hi && s.timers[e] != t
    requires forall e, f :: e in es && f in es && e != f ==> s.timers[e] != s.timers[f]
    ensures |es| < hi - lo
    decreases hi - lo
  {
    if t == hi - 1 {
      PigeonHoleAll(es, s, lo, hi - 1);
    } else if exists e :: e in es && s.timers[e] == hi - 1 {
      var e :| e in es && s.timers[e] == hi - 1;
      PigeonHole(es - {e}, s, lo, hi - 1, t);
    } else {
      PigeonHole(es, s, lo, hi - 1, t);
    }
  }

  lemma {:induction false} PigeonHoleAll(es: set<Entry>, s: State, lo: nat, hi: nat)
    requires es <= s.timers.Keys && lo <= hi
    requires forall e :: e in es ==> lo <= s.timers[e] < hi
    requires forall e, f :: e in es && f in es && e != f ==> s.timers[e] != s.timers[f]
    ensures |es| <= hi - lo
    decreases hi - lo
  {
    if lo < hi {
      if e :| e in es && s.timers[e] == hi - 1 {
        PigeonHoleAll(es - {e}, s, lo, hi - 1);
      } else {
        PigeonHoleAll(es, s, lo, hi - 1);
      }
    } else {
      assert es == {};
    }
  }

  // ---- runs ----------------------------------------------------------------------------

  /** states[0] is d and each step leads from one state to the next. */
  ghost predicate RunFrom(d: Daemon, states: seq<Daemon>, steps: seq<Step>)
  {
    && |states| == |steps| + 1 && states[0] == d
    && forall i :: 0 <= i < |steps| ==> Takes(states[i], steps[i], states[i + 1])
  }

  ghost predicate Run(states: seq<Daemon>, steps: seq<Step>) { RunFrom(START, states, steps) }

  /** No update in the run comes too late for an entry it removes. */
  ghost predicate InTime(states: seq<Daemon>, steps: seq<Step>)
    requires |states| == |steps| + 1
  {
    forall i :: 0 <= i < |steps| && steps[i].Update? ==> !Late(states[i].state, Parse(steps[i].text))
  }

  /** From a safe state, in every state of every run whose updates are in time, each listed entry has
      exactly one outstanding wait, nothing else has any, and every started job was listed. */
  lemma {:induction false} RunsAreSafe(d: Daemon, states: seq<Daemon>, steps: seq<Step>, i: nat)
    requires Safe(d) && SpawnsListed(d)
    requires RunFrom(d, states, steps) && InTime(states, steps) && i <= |steps|
    ensures Safe(states[i]) && SpawnsListed(states[i])
  {
    if i > 0 {
      RunsAreSafe(d, states, steps, i - 1);
      assert Takes(states[i - 1], steps[i - 1], states[i]);
      StepSafe(states[i - 1], steps[i - 1], states[i]);
    }
  }

  lemma StepSafe(d: Daemon, step: Step, d': Daemon)
    requires Safe(d) && SpawnsListed(d) && Takes(d, step, d')
    requires step.Update? ==> !Late(d.state, Parse(step.text))
    ensures Safe(d') && SpawnsListed(d')
  {
    match step
    case Update(text) => UpdateSafeExactly(d, text, d');
    case Expire(t) => ExpireSafe(d, t, d');
    case Fire => FireSafe(d, d');
  }

  ghost predicate SafeThroughout(states: seq<Daemon>)
  {
    forall i :: 0 <= i < |states| ==> Safe(states[i])
  }

  /** Over any run, every state is safe exactly if all updates are in time. */
  lemma RunsSafeExactly(states: seq<Daemon>, steps: seq<Step>)
    requires Run(states, steps)
    ensures SafeThroughout(states) <==> InTime(states, steps)
    ensures InTime(states, steps) ==> SpawnsListed(states[|steps|])
  {
    if InTime(states, steps) {
      StartSafe();
      forall i | 0 <= i < |states| ensures Safe(states[i]) { RunsAreSafe(START, states, steps, i); }
      RunsAreSafe(START, states, steps, |steps|);
    }
    if SafeThroughout(states) {
      forall i | 0 <= i < |steps| && steps[i].Update? ensures !Late(states[i].state, Parse(steps[i].text)) {
        assert Takes(states[i], steps[i], states[i + 1]);
        UpdateSafeExactly(states[i], steps[i].text, states[i + 1]);
      }
    }
  }

  // ---- a late update -------------------------------------------------------------------

  /** However the daemon goes on from d, with updates in time, it starts listed jobs only. */
  ghost predicate StartsListedOnly(d: Daemon)
  {
    forall states: seq<Daemon>, steps: seq<Step> ::
      RunFrom(d, states, steps) && InTime(states, steps) ==> SpawnsListed(states[|steps|])
  }

  lemma ExtendRun(d: Daemon, states: seq<Daemon>, steps: seq<Step>, step: Step, d': Daemon)
    requires RunFrom(d, states, steps) && Takes(states[|steps|], step, d')
    ensures RunFrom(d, states + [d'], steps + [step])
  {
    var states', steps' := states + [d'], steps + [step];
    forall i | 0 <= i < |steps'|
      ensures Takes(states'[i], steps'[i], states'[i + 1])
    {
      if i < |steps| {
        assert Takes(states[i], steps[i], states[i + 1]);
      } else {
        assert states'[i] == states[i] && states'[i + 1] == d';
      }
    }
  }

  lemma ExtendInTime(states: seq<Daemon>, steps: seq<Step>, step: Step, d': Daemon)
    requires |states| == |steps| + 1 && InTime(states, steps)
    requires step.Update? ==> !Late(states[|steps|].state, Parse(step.text))
    ensures InTime(states + [d'], steps + [step])
  {
    var states', steps' := states + [d'], steps + [step];
    forall i | 0 <= i < |steps'| && steps'[i].Update?
      ensures !Late(states'[i].state, Parse(steps'[i].text))
    {
      assert states'[i] == states[i];
      if i < |steps| { assert steps'[i] == steps[i]; }
    }
  }

  lemma Extend(d: Daemon, states: seq<Daemon>, steps: seq<Step>, step: Step, d': Daemon)
    requires RunFrom(d, states, steps) && InTime(states, steps) && Takes(states[|steps|], step, d')
    requires step.Update? ==> !Late(states[|steps|].state, Parse(step.text))
    ensures RunFrom(d, states + [d'], steps + [step]) && InTime(states + [d'], steps + [step])
  {
    ExtendRun(d, states, steps, step, d');
    ExtendInTime(states, steps, step, d');
  }

  ghost predicate Callable(s: State) { forall t :: t in s.ready ==> t in s.callbacks }

  /** All queued handlers run; their timers wait again. */
  lemma {:induction false} FireAll(d: Daemon, d0: Daemon, states: seq<Daemon>, steps: seq<Step>)
    returns (states': seq<Daemon>, steps': seq<Step>, d': Daemon)
    requires RunFrom(d0, states, steps) && InTime(states, steps) && states[|steps|] == d && Callable(d.state)
    ensures RunFrom(d0, states', steps') && InTime(states', steps') && states'[|steps'|] == d'
    ensures d'.state.ready == [] && d'.state.callbacks == d.state.callbacks && d'.state.timers == d.state.timers
    ensures forall t :: t in d.state.waiting || t in d.state.ready ==> t in d'.state.waiting
    decreases |d.state.ready|
  {
    if d.state.ready == [] {
      return states, steps, d;
    }
    var t := d.state.ready[0];
    var s := d.state.(ready := d.state.ready[1..], waiting := d.state.waiting + {t});
    var d1 := Daemon(s, d.read, d.spawned + [Spawn(d.state.callbacks[t], d.read)]);
    Extend(d0, states, steps, Fire, d1);
    states', steps', d' := FireAll(d1, d0, states + [d1], steps + [Fire]);
  }

  /** The state after an update on an empty file. */
  ghost function Emptied(s: State): State
  {
    s.(timers := map[], waiting := s.waiting - Vanished(s, {}))
  }

  lemma EmptyUpdate(d: Daemon)
    ensures Parse("") == {} && Takes(d, Update(""), Daemon(Emptied(d.state), {}, d.spawned))
  {
    assert Records(Stream("", true)) == [];
    assert Parse("") == {};
    assert {} - d.state.timers.Keys == {};
  }

  /** A waiting timer without an entry still starts its job, when no entry is listed any more: it
      expires, the file is emptied, and its handler runs. */
  lemma OrphanStarts(d0: Daemon, states: seq<Daemon>, steps: seq<Step>, d: Daemon, t: nat)
    returns (states': seq<Daemon>, steps': seq<Step>)
    requires RunFrom(d0, states, steps) && InTime(states, steps) && states[|steps|] == d
    requires d.state.ready == [] && t in d.state.waiting && t in d.state.callbacks && !Live(d.state, t)
    ensures RunFrom(d0, states', steps') && InTime(states', steps') && !SpawnsListed(states'[|steps'|])
  {
    var d1 := d.(state := d.state.(waiting := d.state.waiting - {t}, ready := [t]));
    Extend(d0, states, steps, Expire(t), d1);
    var d2 := Daemon(Emptied(d1.state), {}, d1.spawned);
    EmptyUpdate(d1);
    assert t !in Vanished(d1.state, {});
    Extend(d0, states + [d1], steps + [Expire(t)], Update(""), d2);
    var sp := Spawn(d.state.callbacks[t], {});
    var d3 := Daemon(d2.state.(ready := [], waiting := d2.state.waiting + {t}), {}, d2.spawned + [sp]);
    Extend(d0, states + [d1] + [d2], steps + [Expire(t)] + [Update("")], Fire, d3);
    states', steps' := states + [d1] + [d2] + [d3], steps + [Expire(t)] + [Update("")] + [Fire];
    assert sp in d3.spawned;
  }

  /** After an update of a safe daemon, whatever follows in time starts listed jobs only exactly if the
      update itself was in time. */
  lemma StartsListedExactly(d: Daemon, text: string, d': Daemon)
    requires Safe(d) && SpawnsListed(d) && Takes(d, Update(text), d')
    ensures StartsListedOnly(d') <==> !Late(d.state, Parse(text))
  {
    if Late(d.state, Parse(text)) {
      var t :| t in d.state.ready && t in Vanished(d.state, Parse(text));
      VanishedNotLive(d, text, d', t);
      LateCallable(d, text, d');
      var states, steps, d1 := FireAll(d', d', [d'], []);
      states, steps := OrphanStarts(d', states, steps, d1, t);
    } else {
      UpdateSafeExactly(d, text, d');
      forall states: seq<Daemon>, steps: seq<Step> | RunFrom(d', states, steps) && InTime(states, steps)
        ensures SpawnsListed(states[|steps|])
      {
        RunsAreSafe(d', states, steps, |steps|);
      }
    }
  }

  lemma LateCallable(d: Daemon, text: string, d': Daemon)
    requires Safe(d) && Takes(d, Update(text), d')
    ensures d'.state.ready == d.state.ready && Callable(d'.state)
  {
    forall t | t in d'.state.ready ensures t in d'.state.callbacks {
      assert Outstanding(d.state, t) > 0 && Live(d.state, t);
    }
  }

  /** The states of the run below: e is listed, its timer expires, e is removed, the handler runs. */
  ghost function Listing(e: Entry): Daemon { Daemon(StartTimer(INITIAL, e), {e}, []) }
  ghost function Expired(e: Entry): Daemon
  {
    Listing(e).(state := StartTimer(INITIAL, e).(waiting := {}, ready := [0]))
  }

  ghost function Removed(e: Entry): Daemon { Daemon(DropTimer(Expired(e).state, e), {}, []) }
  ghost function Fired(e: Entry): Daemon
  {
    Daemon(Removed(e).state.(waiting := {0}, ready := []), {}, [Spawn(e.job, {})])
  }

  lemma ListThenExpire(e: Entry)
    requires WellFormed(e)
    ensures Takes(START, Update(Print([e])), Listing(e)) && Takes(Listing(e), Expire(0), Expired(e))
  {
    ParseOne(e);
    ReconciledSame(INITIAL);
    ReconciledStart(INITIAL, INITIAL, {}, e);
    assert {} + {e} == {e};
  }

  lemma ParseOne(e: Entry)
    requires WellFormed(e)
    ensures Parse(Print([e])) == {e}
  {
    ParsePrintExactly([e]);
    assert Elements([e]) == {e};
  }

  lemma Remove(e: Entry)
    ensures Takes(Expired(e), Update(""), Removed(e)) && Late(Expired(e).state, Parse(""))
  {
    var s := Expired(e).state;
    EmptyUpdate(Expired(e));
    assert s.timers.Keys == {e} && s.timers[e] == 0;
    assert 0 in s.ready && 0 in Vanished(s, {});
    assert Emptied(s).timers == Removed(e).state.timers && Emptied(s).waiting == Removed(e).state.waiting;
  }

  /** Without that condition a removed job is started once more: for any entry, four steps from the
      start list it, let its timer expire, remove it and then run the queued handler. */
  lemma LateUpdateSpawns(e: Entry)
    requires WellFormed(e)
    ensures Takes(START, Update(Print([e])), Listing(e)) && Takes(Listing(e), Expire(0), Expired(e))
    ensures Takes(Expired(e), Update(""), Removed(e)) && Takes(Removed(e), Fire, Fired(e))
    ensures Late(Expired(e).state, Parse("")) && !SpawnsListed(Fired(e))
  {
    ListThenExpire(e);
    Remove(e);
    LastFires(e);
  }

  lemma LastFires(e: Entry)
    ensures Takes(Removed(e), Fire, Fired(e)) && !SpawnsListed(Fired(e))
  {
    assert Spawn(e.job, {}) in Fired(e).spawned;
  }

  /** After any sequence of add and del commands the next update leaves timers for exactly the entries
      that the commands, read as operations on a set, amount to. */
  lemma UpdateAfterCommands(text: string, cs: seq<Command>, s: State, s': State)
    requires forall c :: c in cs && c.Add? && c.valid ==> WellFormed(c.entry)
    requires Reconciled(s, s', Parse(ExecuteAll(text, cs)))
    ensures s'.timers.Keys == Fold(Parse(text), cs)
  {
    CommandsDenoteFold(text, cs);
  }
}
