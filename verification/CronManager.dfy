/** cron_manager: reconciling the running timers with the crons file by a merge of two sorted
    sequences that inserts into and erases from the map it walks. */
module CronManager {
  import opened Text
  import opened CronText

  /** timers_ and what boost::asio holds for it. A timer object is named by its serial number:
      waiting has the timers with a pending wait, ready the expired waits whose handlers are queued
      and will run without error, callbacks the job each timer was started for. */
  datatype State = State(timers: map<Entry, nat>, waiting: set<nat>, ready: seq<nat>,
                         callbacks: map<nat, string>, next: nat)

  const INITIAL := State(map[], {}, [], map[], 0)

  datatype Effect = Started(entry: Entry) | Cancelled(entry: Entry)

  /** Serial numbers of the timers in s that have no entry in goal. */
  function Vanished(s: State, goal: set<Entry>): set<nat>
  {
    set e | e in s.timers && e !in goal :: s.timers[e]
  }

  /** s' is s with its timers made to match goal: surviving entries keep their timer, no pending wait
      but those of vanished entries is touched, and each new entry has a fresh waiting timer. */
  ghost predicate Reconciled(s: State, s': State, goal: set<Entry>)
  {
    && s'.timers.Keys == goal
    && s'.ready == s.ready
    && s'.next == s.next + |goal - s.timers.Keys|
    && WaitsKept(s, s', goal)
    && SurvivorsKept(s, s', goal)
    && NewStarted(s, s', goal)
  }

  ghost predicate WaitsKept(s: State, s': State, goal: set<Entry>)
  {
    forall t :: t in s'.waiting <==> s.next <= t < s'.next || (t in s.waiting && t !in Vanished(s, goal))
  }

  ghost predicate SurvivorsKept(s: State, s': State, goal: set<Entry>)
    requires s'.timers.Keys == goal
  {
    && (forall e :: e in goal && e in s.timers ==> s'.timers[e] == s.timers[e])
    && (forall t :: t in s.callbacks && t < s.next ==> t in s'.callbacks && s'.callbacks[t] == s.callbacks[t])
    && (forall t :: t in s'.callbacks ==> t in s.callbacks || s.next <= t < s'.next)
  }

  /** The new timers have distinct serial numbers, which were not in use, and their own callbacks. */
  ghost predicate NewStarted(s: State, s': State, goal: set<Entry>)
    requires s'.timers.Keys == goal
  {
    && (forall e :: e in goal && e !in s.timers ==>
          s.next <= s'.timers[e] < s'.next && s'.timers[e] in s'.callbacks && s'.callbacks[s'.timers[e]] == e.job)
    && (forall e, f :: e in goal - s.timers.Keys && f in goal - s.timers.Keys && e != f ==>
          s'.timers[e] != s'.timers[f])
  }

  /** Each vanished entry is cancelled once, each new one started once, and nothing else happens. */
  ghost predicate EffectsOnce(effects: seq<Effect>, before: set<Entry>, goal: set<Entry>)
  {
    && (forall e :: multiset(effects)[Cancelled(e)] == if e in before - goal then 1 else 0)
    && (forall e :: multiset(effects)[Started(e)] == if e in goal - before then 1 else 0)
  }

  function StartTimer(s: State, e: Entry): State
  {
    State(s.timers[e := s.next], s.waiting + {s.next}, s.ready, s.callbacks[s.next := e.job], s.next + 1)
  }

  function DropTimer(s: State, e: Entry): State
    requires e in s.timers
  {
    s.(timers := s.timers - {e}, waiting := s.waiting - {s.timers[e]})
  }

  lemma ReconciledSame(s: State)
    ensures Reconciled(s, s, s.timers.Keys)
  {
    assert s.timers.Keys - s.timers.Keys == {};
  }

  lemma ReconciledStart(s: State, s1: State, goal: set<Entry>, e: Entry)
    requires Reconciled(s, s1, goal) && e !in goal && e !in s.timers
    ensures Reconciled(s, StartTimer(s1, e), goal + {e})
  {
    CountStart(goal, s.timers.Keys, e);
    WaitingStart(s, s1, goal, e);
    SurvivorsStart(s, s1, goal, e);
    NewStart(s, s1, goal, e);
  }

  lemma CountStart(goal: set<Entry>, before: set<Entry>, e: Entry)
    requires e !in goal && e !in before
    ensures |goal + {e} - before| == |goal - before| + 1
  {
    assert goal + {e} - before == (goal - before) + {e};
  }

  lemma WaitingStart(s: State, s1: State, goal: set<Entry>, e: Entry)
    requires WaitsKept(s, s1, goal) && e !in s.timers && s.next <= s1.next
    ensures WaitsKept(s, StartTimer(s1, e), goal + {e})
  {
    assert Vanished(s, goal + {e}) == Vanished(s, goal);
  }

  lemma SurvivorsStart(s: State, s1: State, goal: set<Entry>, e: Entry)
    requires s1.timers.Keys == goal && SurvivorsKept(s, s1, goal) && e !in s.timers && s.next <= s1.next
    ensures SurvivorsKept(s, StartTimer(s1, e), goal + {e})
  {
  }

  lemma NewStart(s: State, s1: State, goal: set<Entry>, e: Entry)
    requires s1.timers.Keys == goal && NewStarted(s, s1, goal) && e !in goal && s.next <= s1.next
    ensures NewStarted(s, StartTimer(s1, e), goal + {e})
  {
  }

  lemma ReconciledDrop(s: State, s1: State, goal: set<Entry>, e: Entry)
    requires Reconciled(s, s1, goal) && e in goal && e in s.timers && s.timers[e] < s.next
    ensures Reconciled(s, DropTimer(s1, e), goal - {e})
  {
    assert goal - {e} - s.timers.Keys == goal - s.timers.Keys;
    WaitingDrop(s, s1, goal, e);
    RestDrop(s, s1, goal, e);
  }

  lemma WaitingDrop(s: State, s1: State, goal: set<Entry>, e: Entry)
    requires WaitsKept(s, s1, goal) && e in s.timers && e in s1.timers && s1.timers[e] == s.timers[e] < s.next
    ensures WaitsKept(s, DropTimer(s1, e), goal - {e})
  {
    assert Vanished(s, goal - {e}) == Vanished(s, goal) + {s.timers[e]};
  }

  lemma RestDrop(s: State, s1: State, goal: set<Entry>, e: Entry)
    requires s1.timers.Keys == goal && e in goal && SurvivorsKept(s, s1, goal) && NewStarted(s, s1, goal)
    ensures var s2 := DropTimer(s1, e);
            s2.timers.Keys == goal - {e} && SurvivorsKept(s, s2, goal - {e}) && NewStarted(s, s2, goal - {e})
  {
  }

  lemma EffectsStart(effects: seq<Effect>, before: set<Entry>, goal: set<Entry>, e: Entry)
    requires EffectsOnce(effects, before, goal) && e !in goal && e !in before
    ensures EffectsOnce(effects + [Started(e)], before, goal + {e})
  {
  }

  lemma EffectsDrop(effects: seq<Effect>, before: set<Entry>, goal: set<Entry>, e: Entry)
    requires EffectsOnce(effects, before, goal) && e in goal && e in before
    ensures EffectsOnce(effects + [Cancelled(e)], before, goal - {e})
  {
  }

  // ---- the merge on sequences ----------------------------------------------------------

  /** Part way through: the first i entries of the new list are in place, the first o of the old
      list are dealt with, and keys is what the map holds. */
  ghost predicate Merging(wanted: seq<Entry>, prior: seq<Entry>, keys: seq<Entry>, i: nat, o: nat)
  {
    && i <= |wanted| && o <= |prior| && Sorted(wanted) && Sorted(prior)
    && keys == wanted[..i] + prior[o..]
    && (i < |wanted| ==> forall x :: x in prior[..o] ==> Before(x, wanted[i]))
    && (o < |prior| ==> forall x :: x in wanted[..i] ==> Before(x, prior[o]))
  }

  lemma MergeInsert(wanted: seq<Entry>, prior: seq<Entry>, keys: seq<Entry>, i: nat, o: nat)
    requires Merging(wanted, prior, keys, i, o) && i < |wanted|
    requires o < |prior| ==> Before(wanted[i], prior[o])
    ensures Merging(wanted, prior, Insert(keys, wanted[i]), i + 1, o)
    ensures wanted[i] !in prior && wanted[i] !in keys
    ensures Elements(Insert(keys, wanted[i])) == Elements(keys) + {wanted[i]}
  {
    var e := wanted[i];
    var a, b := wanted[..i], prior[o..];
    BeforeIrreflexive(e);
    forall x | x in b ensures Before(e, x) {
      if x != prior[o] { BeforeTransitive(e, prior[o], x); }
    }
    forall x | x in a ensures Before(x, e) {}
    forall x, y | x in a && y in b ensures Before(x, y) { BeforeTransitive(x, e, y); }
    InsertBetween(a, e, b);
    assert a + [e] == wanted[..i + 1];
    assert prior == prior[..o] + b;
    if i + 1 < |wanted| {
      forall x | x in prior[..o] ensures Before(x, wanted[i + 1]) { BeforeTransitive(x, e, wanted[i + 1]); }
    }
    assert Elements(a + [e] + b) == Elements(a + b) + {e};
  }

  lemma MergeErase(wanted: seq<Entry>, prior: seq<Entry>, keys: seq<Entry>, i: nat, o: nat)
    requires Merging(wanted, prior, keys, i, o) && o < |prior|
    requires i < |wanted| ==> Before(prior[o], wanted[i])
    ensures i < |keys| && keys[i] == prior[o]
    ensures Merging(wanted, prior, keys[..i] + keys[i + 1..], i, o + 1)
    ensures Elements(keys[..i] + keys[i + 1..]) == Elements(keys) - {prior[o]}
  {
    var e := prior[o];
    var a, b := wanted[..i], prior[o + 1..];
    BeforeIrreflexive(e);
    assert prior[o..] == [e] + b && prior[..o + 1] == prior[..o] + [e];
    assert keys[..i] + keys[i + 1..] == a + b;
    assert forall x :: x in b ==> Before(e, x);
    if o + 1 < |prior| {
      forall x | x in a ensures Before(x, prior[o + 1]) { BeforeTransitive(x, e, prior[o + 1]); }
    }
    assert Elements(keys) == Elements(a + b) + {e};
  }

  lemma MergeKeep(wanted: seq<Entry>, prior: seq<Entry>, keys: seq<Entry>, i: nat, o: nat)
    requires Merging(wanted, prior, keys, i, o) && i < |wanted| && o < |prior| && wanted[i] == prior[o]
    ensures Merging(wanted, prior, keys, i + 1, o + 1)
  {
    var e := wanted[i];
    assert wanted[..i + 1] == wanted[..i] + [e] && prior[..o + 1] == prior[..o] + [e];
    assert prior[o..] == [e] + prior[o + 1..];
    if i + 1 < |wanted| {
      forall x | x in prior[..o] + [e] ensures Before(x, wanted[i + 1]) {
        if x != e { BeforeTransitive(x, e, wanted[i + 1]); }
      }
    }
    if o + 1 < |prior| {
      forall x | x in wanted[..i] + [e] ensures Before(x, prior[o + 1]) {
        if x != e { BeforeTransitive(x, e, prior[o + 1]); }
      }
    }
  }

  /** The entries in place when the merge stops at the new entry bad: those before it in the new
      list and those after it in the old one. */
  ghost function StoppedAt(wanted: set<Entry>, prior: set<Entry>, bad: Entry): set<Entry>
  {
    (set e | e in wanted && Before(e, bad)) + (set e | e in prior && Before(bad, e))
  }

  /** bad is the first new entry, in map order, whose expression make_cron rejects. */
  ghost predicate FirstRejected(goal: set<Entry>, before: set<Entry>, rejected: set<string>, bad: Entry)
  {
    && bad in goal && bad !in before && bad.expr in rejected
    && forall e :: e in goal && Before(e, bad) ==> e in before || e.expr !in rejected
  }

  /** The merge toward goal went up to that entry and did nothing beyond it. */
  ghost predicate HalfDone(s: State, s': State, effects: seq<Effect>, goal: set<Entry>, rejected: set<string>,
                           bad: Entry)
  {
    && FirstRejected(goal, s.timers.Keys, rejected, bad)
    && Reconciled(s, s', StoppedAt(goal, s.timers.Keys, bad))
    && EffectsOnce(effects, s.timers.Keys, StoppedAt(goal, s.timers.Keys, bad))
  }

  lemma MergeStopped(wanted: seq<Entry>, prior: seq<Entry>, keys: seq<Entry>, i: nat, o: nat)
    requires Merging(wanted, prior, keys, i, o) && i < |wanted|
    requires o < |prior| ==> Before(wanted[i], prior[o])
    ensures Elements(keys) == StoppedAt(Elements(wanted), Elements(prior), wanted[i])
    ensures wanted[i] !in prior
  {
    var e := wanted[i];
    MergeInsert(wanted, prior, keys, i, o);
    assert wanted == wanted[..i] + wanted[i..] && prior == prior[..o] + prior[o..];
    forall x | x in wanted[i..] ensures !Before(x, e) {
      if Before(x, e) && x != e { BeforeTransitive(e, x, e); }
      BeforeIrreflexive(e);
    }
    forall x | x in prior[..o] ensures !Before(e, x) {
      if Before(e, x) { BeforeTransitive(e, x, e); BeforeIrreflexive(e); }
    }
    forall x | x in prior[o..] ensures Before(e, x) {
      if x != prior[o] { BeforeTransitive(e, prior[o], x); }
    }
    forall x | x in wanted[..i] ensures Before(x, e) {}
  }

  /** What holds between two steps of the merge: p is the state the update began with. */
  ghost predicate Midway(wanted: seq<Entry>, prior: seq<Entry>, p: State, keys: seq<Entry>, s: State,
                         effects: seq<Effect>, i: nat, o: nat)
  {
    && Merging(wanted, prior, keys, i, o)
    && Bounded(p) && Elements(prior) == p.timers.Keys
    && Reconciled(p, s, Elements(keys))
    && EffectsOnce(effects, p.timers.Keys, Elements(keys))
  }

  ghost predicate Bounded(s: State)
  {
    && (forall e :: e in s.timers ==> s.timers[e] < s.next)
    && (forall t :: t in s.callbacks ==> t < s.next)
  }

  lemma MidwayInsert(wanted: seq<Entry>, prior: seq<Entry>, p: State, keys: seq<Entry>, s: State,
                     effects: seq<Effect>, i: nat, o: nat)
    requires Midway(wanted, prior, p, keys, s, effects, i, o) && i < |wanted|
    requires o < |prior| ==> Before(wanted[i], prior[o])
    ensures Midway(wanted, prior, p, Insert(keys, wanted[i]), StartTimer(s, wanted[i]),
                   effects + [Started(wanted[i])], i + 1, o)
  {
    MergeInsert(wanted, prior, keys, i, o);
    assert wanted[i] !in Elements(keys) && wanted[i] !in Elements(prior);
    ReconciledStart(p, s, Elements(keys), wanted[i]);
    EffectsStart(effects, p.timers.Keys, Elements(keys), wanted[i]);
  }

  lemma MidwayErase(wanted: seq<Entry>, prior: seq<Entry>, p: State, keys: seq<Entry>, s: State,
                    effects: seq<Effect>, i: nat, o: nat)
    requires Midway(wanted, prior, p, keys, s, effects, i, o) && o < |prior|
    requires i < |wanted| ==> Before(prior[o], wanted[i])
    ensures i < |keys| && keys[i] == prior[o] && prior[o] in s.timers
    ensures Midway(wanted, prior, p, keys[..i] + keys[i + 1..], DropTimer(s, prior[o]),
                   effects + [Cancelled(prior[o])], i, o + 1)
  {
    MergeErase(wanted, prior, keys, i, o);
    assert prior[o] in Elements(keys) && prior[o] in Elements(prior);
    ReconciledDrop(p, s, Elements(keys), prior[o]);
    EffectsDrop(effects, p.timers.Keys, Elements(keys), prior[o]);
  }

  // ---- cron_manager --------------------------------------------------------------------

  /** make_cron accepts those of the first n wanted entries that have no timer yet. */
  ghost predicate Accepted(wanted: seq<Entry>, n: nat, prior: seq<Entry>, rejected: set<string>)
  {
    n <= |wanted| && forall k :: 0 <= k < n ==> wanted[k] in prior || wanted[k].expr !in rejected
  }

  /** make_cron throws on the new entry at position i, which stands before the old one at o. */
  ghost predicate StopsAt(wanted: seq<Entry>, rejected: set<string>, prior: seq<Entry>, i: nat, o: nat)
  {
    i < |wanted| && wanted[i].expr in rejected && (o < |prior| ==> Before(wanted[i], prior[o]))
  }

  lemma MidwayKeep(wanted: seq<Entry>, rejected: set<string>, prior: seq<Entry>, p: State,
                   keys: seq<Entry>, s: State, effects: seq<Effect>, i: nat, o: nat)
    requires Midway(wanted, prior, p, keys, s, effects, i, o) && Accepted(wanted, i, prior, rejected)
    requires i < |wanted| && o < |prior| && wanted[i] == prior[o]
    ensures Midway(wanted, prior, p, keys, s, effects, i + 1, o + 1) && Accepted(wanted, i + 1, prior, rejected)
  {
    MergeKeep(wanted, prior, keys, i, o);
  }

  lemma CursorIsOld(wanted: seq<Entry>, prior: seq<Entry>, keys: seq<Entry>, i: nat, o: nat)
    requires Merging(wanted, prior, keys, i, o) && i < |keys|
    ensures o < |prior| && keys[i] == prior[o]
  {
  }

  class CronManager {
    var keys: seq<Entry>      // the keys of timers_ in map order
    var state: State
    var effects: seq<Effect>  // what the last update did

    ghost predicate Valid()
      reads this
    {
      Sorted(keys) && Elements(keys) == state.timers.Keys && Bounded(state)
    }

    constructor ()
      ensures Valid() && state == INITIAL && effects == []
    {
      keys, state, effects := [], INITIAL, [];
    }

    /** emplace_hint of a new timer, then cron_timer::run on it. */
    method EmplaceAndRun(e: Entry)
      modifies this
      ensures keys == Insert(old(keys), e) && state == StartTimer(old(state), e)
      ensures effects == old(effects) + [Started(e)]
    {
      var timer := state.next;
      keys := Insert(keys, e);
      state := state.(timers := state.timers[e := timer], next := timer + 1);
      state := state.(waiting := state.waiting + {timer}, callbacks := state.callbacks[timer := e.job]);
      effects := effects + [Started(e)];
    }

    /** cron_timer::cancel, then erase of the entry at position it. */
    method CancelAndErase(it: nat)
      requires it < |keys| && keys[it] in state.timers
      modifies this
      ensures keys == old(keys)[..it] + old(keys)[it + 1..] && state == DropTimer(old(state), old(keys)[it])
      ensures effects == old(effects) + [Cancelled(old(keys)[it])]
    {
      var e := keys[it];
      state := state.(waiting := state.waiting - {state.timers[e]});
      effects := effects + [Cancelled(e)];
      keys, state := keys[..it] + keys[it + 1..], state.(timers := state.timers - {e});
    }

    /** The merge stands at position i of the new entries and o of the prior ones. */
    ghost predicate At(wanted: seq<Entry>, prior: seq<Entry>, p: State, i: nat, o: nat)
      reads this
    {
      Midway(wanted, prior, p, keys, state, effects, i, o)
    }

    /** make_cron on the new entry at the cursor and, unless it throws, a timer for it. */
    method StepInsert(wanted: seq<Entry>, rejected: set<string>, ghost prior: seq<Entry>, ghost p: State,
                      cursor: nat, ghost o: nat)
      returns (ok: bool, next: nat)
      requires At(wanted, prior, p, cursor, o) && Accepted(wanted, cursor, prior, rejected)
      requires cursor < |wanted| && (o < |prior| ==> Before(wanted[cursor], prior[o]))
      modifies this
      ensures At(wanted, prior, p, next, o) && Accepted(wanted, next, prior, rejected)
      ensures if ok then next == cursor + 1 else next == cursor && wanted[cursor].expr in rejected
    {
      if wanted[cursor].expr in rejected {
        return false, cursor;
      }
      MidwayInsert(wanted, prior, p, keys, state, effects, cursor, o);
      EmplaceAndRun(wanted[cursor]);
      return true, cursor + 1;
    }

    method StepErase(ghost wanted: seq<Entry>, ghost prior: seq<Entry>, ghost p: State, i: nat, ghost o: nat)
      requires At(wanted, prior, p, i, o) && o < |prior| && (i < |wanted| ==> Before(prior[o], wanted[i]))
      modifies this
      ensures At(wanted, prior, p, i, o + 1)
    {
      MidwayErase(wanted, prior, p, keys, state, effects, i, o);
      CancelAndErase(i);
    }

    /** One round of the first loop. An insertion before old_it leaves it on its entry, which is then
        one position further on. The round only stops at a new entry whose expression make_cron
        rejects. In both ranges the cursors have always passed equally many entries. */
    method StepBoth(wanted: seq<Entry>, rejected: set<string>, ghost prior: seq<Entry>, ghost p: State,
                    newIt: nat, oldIt: nat, ghost o: nat)
      returns (ok: bool, newIt': nat, oldIt': nat, ghost o': nat)
      requires At(wanted, prior, p, newIt, o) && Accepted(wanted, newIt, prior, rejected) && oldIt == newIt
      requires newIt < |wanted| && oldIt < |keys|
      modifies this
      ensures At(wanted, prior, p, newIt', o') && Accepted(wanted, newIt', prior, rejected) && oldIt' == newIt'
      ensures ok ==> newIt <= newIt' <= |wanted| && o <= o' <= |prior| && newIt + o < newIt' + o'
      ensures !ok ==> StopsAt(wanted, rejected, prior, newIt', o')
    {
      ok, newIt', oldIt', o' := true, newIt, oldIt, o;
      CursorIsOld(wanted, prior, keys, oldIt, o);
      BeforeTotal(wanted[newIt], prior[o]);
      if Before(wanted[newIt], keys[oldIt]) {
        ok, newIt' := StepInsert(wanted, rejected, prior, p, newIt, o);
        if ok {
          oldIt' := oldIt + 1;
        }
      } else if Before(keys[oldIt], wanted[newIt]) {
        StepErase(wanted, prior, p, oldIt, o);
        o' := o + 1;
      } else {
        MidwayKeep(wanted, rejected, prior, p, keys, state, effects, newIt, o);
        newIt', oldIt', o' := newIt + 1, oldIt + 1, o + 1;
      }
    }

    /** The first loop of update. */
    method MergeBoth(wanted: seq<Entry>, rejected: set<string>, ghost prior: seq<Entry>, ghost p: State)
      returns (ok: bool, newIt: nat, oldIt: nat, ghost o: nat)
      requires At(wanted, prior, p, 0, 0)
      modifies this
      ensures newIt <= |wanted| && At(wanted, prior, p, newIt, o) && Accepted(wanted, newIt, prior, rejected)
      ensures oldIt == newIt
      ensures ok ==> newIt == |wanted| || o == |prior|
      ensures !ok ==> StopsAt(wanted, rejected, prior, newIt, o)
    {
      ok, newIt, oldIt, o := true, 0, 0, 0;
      while ok && newIt < |wanted| && oldIt < |keys|
        invariant newIt <= |wanted| && o <= |prior| && oldIt == newIt
        invariant At(wanted, prior, p, newIt, o) && Accepted(wanted, newIt, prior, rejected)
        invariant !ok ==> StopsAt(wanted, rejected, prior, newIt, o)
        decreases ok, |wanted| - newIt + |prior| - o
      {
        ok, newIt, oldIt, o := StepBoth(wanted, rejected, prior, p, newIt, oldIt, o);
      }
    }

    /** The second loop: old entries beyond the last new one. */
    method EraseRest(ghost wanted: seq<Entry>, ghost prior: seq<Entry>, ghost p: State, oldIt: nat, ghost o: nat)
      requires At(wanted, prior, p, oldIt, o) && (oldIt == |wanted| || o == |prior|)
      modifies this
      ensures At(wanted, prior, p, oldIt, |prior|)
    {
      ghost var o := o;
      while oldIt < |keys|
        invariant o <= |prior| && |keys| == oldIt + |prior| - o
        invariant At(wanted, prior, p, oldIt, o) && (oldIt == |wanted| || o == |prior|)
        decreases |prior| - o
      {
        StepErase(wanted, prior, p, oldIt, o);
        o := o + 1;
      }
    }

    /** The third loop: new entries beyond the last old one. */
    method InsertRest(wanted: seq<Entry>, rejected: set<string>, ghost prior: seq<Entry>, ghost p: State,
                      from: nat, ghost o: nat)
      returns (ok: bool, cursor: nat)
      requires At(wanted, prior, p, from, o) && Accepted(wanted, from, prior, rejected) && o == |prior|
      modifies this
      ensures At(wanted, prior, p, cursor, o) && Accepted(wanted, cursor, prior, rejected)
      ensures if ok then cursor == |wanted| else cursor < |wanted| && wanted[cursor].expr in rejected
    {
      ok, cursor := true, from;
      while ok && cursor < |wanted|
        invariant At(wanted, prior, p, cursor, o) && Accepted(wanted, cursor, prior, rejected)
        invariant !ok ==> cursor < |wanted| && wanted[cursor].expr in rejected
        decreases ok, |wanted| - cursor
      {
        ok, cursor := StepInsert(wanted, rejected, prior, p, cursor, o);
      }
    }

    /** update: text is None when the crons file does not open; rejected is make_cron's judgement, and
        ok is false when make_cron throws on a new entry and the update is left half done. */
    method Update(text: Option<string>, rejected: set<string>) returns (ok: bool)
      requires Valid()
      modifies this
      ensures Valid()
      ensures text == None ==> ok && state == old(state) && effects == []
      ensures text.Some? ==>
                (ok <==> forall e :: e in Parse(text.value) && e !in old(state).timers ==> e.expr !in rejected)
      ensures text.Some? && ok ==>
                && Reconciled(old(state), state, Parse(text.value))
                && EffectsOnce(effects, old(state).timers.Keys, Parse(text.value))
      ensures text.Some? && !ok ==>
                exists bad :: HalfDone(old(state), state, effects, Parse(text.value), rejected, bad)
    {
      effects := [];
      if text == None {
        return true;
      }
      var crons := ReadCrons(text.value);
      ghost var prior, p := keys, state;
      MidwayBegin(crons, prior, p);
      var newIt, oldIt; ghost var o;
      ok, newIt, oldIt, o := MergeBoth(crons, rejected, prior, p);
      if ok {
        EraseRest(crons, prior, p, oldIt, o);
        o := |prior|;
        ok, newIt := InsertRest(crons, rejected, prior, p, newIt, o);
      }
      MidwayValid(crons, prior, p, keys, state, effects, newIt, o);
      if ok {
        MidwayDone(crons, prior, p, keys, state, effects, rejected);
      } else {
        MidwayStopped(crons, prior, p, keys, state, effects, rejected, newIt, o);
      }
    }
  }

  lemma MidwayBegin(wanted: seq<Entry>, prior: seq<Entry>, p: State)
    requires Sorted(wanted) && Sorted(prior) && Elements(prior) == p.timers.Keys && Bounded(p)
    ensures Midway(wanted, prior, p, prior, p, [], 0, 0)
  {
    ReconciledSame(p);
    assert wanted[..0] + prior[0..] == prior;
  }

  lemma MidwayValid(wanted: seq<Entry>, prior: seq<Entry>, p: State, keys: seq<Entry>, s: State,
                    effects: seq<Effect>, i: nat, o: nat)
    requires Midway(wanted, prior, p, keys, s, effects, i, o)
    ensures Sorted(keys) && Elements(keys) == s.timers.Keys && Bounded(s)
  {
    MergingSorted(wanted, prior, keys, i, o);
    ReconciledBounded(p, s, Elements(keys));
  }

  lemma MergingSorted(wanted: seq<Entry>, prior: seq<Entry>, keys: seq<Entry>, i: nat, o: nat)
    requires Merging(wanted, prior, keys, i, o)
    ensures Sorted(keys)
  {
    forall x, y | 0 <= x < y < |keys|
      ensures Before(keys[x], keys[y])
    {
      if x < i <= y {
        assert keys[x] in wanted[..i] && keys[y] == prior[o + (y - i)];
        if y > i { BeforeTransitive(keys[x], prior[o], keys[y]); }
      }
    }
  }

  lemma ReconciledBounded(p: State, s: State, goal: set<Entry>)
    requires Bounded(p) && Reconciled(p, s, goal)
    ensures Bounded(s)
  {
  }

  lemma MidwayDone(wanted: seq<Entry>, prior: seq<Entry>, p: State, keys: seq<Entry>, s: State,
                   effects: seq<Effect>, rejected: set<string>)
    requires Midway(wanted, prior, p, keys, s, effects, |wanted|, |prior|)
    requires Accepted(wanted, |wanted|, prior, rejected)
    ensures forall e :: e in Elements(wanted) && e !in p.timers ==> e.expr !in rejected
    ensures Reconciled(p, s, Elements(wanted)) && EffectsOnce(effects, p.timers.Keys, Elements(wanted))
  {
    assert keys == wanted;
    forall e | e in Elements(wanted) && e !in p.timers
      ensures e.expr !in rejected
    {
      assert e !in Elements(prior);
    }
  }

  lemma MidwayStopped(wanted: seq<Entry>, prior: seq<Entry>, p: State, keys: seq<Entry>, s: State,
                      effects: seq<Effect>, rejected: set<string>, i: nat, o: nat)
    requires Midway(wanted, prior, p, keys, s, effects, i, o) && Accepted(wanted, i, prior, rejected)
    requires StopsAt(wanted, rejected, prior, i, o)
    ensures HalfDone(p, s, effects, Elements(wanted), rejected, wanted[i])
  {
    MergeStopped(wanted, prior, keys, i, o);
    assert wanted[i] !in Elements(prior);
    forall e | e in wanted && Before(e, wanted[i])
      ensures e in p.timers || e.expr !in rejected
    {
      var k :| 0 <= k < |wanted| && wanted[k] == e;
      NotAfter(wanted, i, k);
      assert e in prior ==> e in Elements(prior);
    }
  }

  lemma NotAfter(wanted: seq<Entry>, i: nat, k: nat)
    requires Sorted(wanted) && i < |wanted| && k < |wanted| && Before(wanted[k], wanted[i])
    ensures k < i
  {
    BeforeIrreflexive(wanted[i]);
    if i < k { BeforeTransitive(wanted[k], wanted[i], wanted[k]); BeforeIrreflexive(wanted[k]); }
  }

  /** A second update on an unchanged file does nothing at all. */
  lemma UpdateAgain(s: State, s': State, effects: seq<Effect>)
    requires Bounded(s)
    requires Reconciled(s, s', s.timers.Keys) && EffectsOnce(effects, s.timers.Keys, s.timers.Keys)
    ensures s' == s && effects == []
  {
    assert s.timers.Keys - s.timers.Keys == {};
    assert s'.timers == s.timers;
    assert s'.waiting == s.waiting;
    assert s'.callbacks == s.callbacks;
    forall x ensures multiset(effects)[x] == 0 {
      match x
      case Started(e) =>
      case Cancelled(e) =>
    }
    assert effects != [] ==> multiset(effects)[effects[0]] > 0;
  }

  function Cancels(effects: seq<Effect>): nat
  {
    if effects == [] then 0 else (if effects[0].Cancelled? then 1 else 0) + Cancels(effects[1..])
  }

  function Starts(effects: seq<Effect>): nat
  {
    if effects == [] then 0 else (if effects[0].Started? then 1 else 0) + Starts(effects[1..])
  }

  /** An update makes as many cancels as entries vanish and as many starts as entries are new. */
  lemma EffectsCount(effects: seq<Effect>, before: set<Entry>, goal: set<Entry>)
    requires EffectsOnce(effects, before, goal)
    ensures Cancels(effects) == |before - goal| && Starts(effects) == |goal - before|
    ensures |effects| == Cancels(effects) + Starts(effects)
  {
    CountEffects(effects, before - goal, goal - before);
  }

  lemma {:induction false} CountEffects(effects: seq<Effect>, gone: set<Entry>, added: set<Entry>)
    requires forall e :: multiset(effects)[Cancelled(e)] == if e in gone then 1 else 0
    requires forall e :: multiset(effects)[Started(e)] == if e in added then 1 else 0
    ensures Cancels(effects) == |gone| && Starts(effects) == |added| && |effects| == Cancels(effects) + Starts(effects)
  {
    if effects == [] {
      forall e ensures e !in gone && e !in added {
        assert multiset(effects)[Cancelled(e)] == 0 && multiset(effects)[Started(e)] == 0;
      }
      assert gone == {} && added == {};
    } else {
      var x := effects[0];
      assert effects == [x] + effects[1..];
      assert multiset(effects)[x] >= 1;
      match x
      case Cancelled(e) => CountEffects(effects[1..], gone - {e}, added);
      case Started(e) => CountEffects(effects[1..], gone, added - {e});
    }
  }
}
