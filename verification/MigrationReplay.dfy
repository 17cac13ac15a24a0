/** Running migrations again once they are all applied: every run succeeds and none changes anything. */
module MigrationReplay {
  import opened Basics
  import opened MigrationRunner

  /** The database holds this list and nothing else. */
  ghost predicate IsComplete(db: Database, list: seq<Migration>) {
    db.tracked && Applied(db, list)
  }

  // ----- one run

  lemma RunContinues(happenings: seq<Happening>, h: Happening)
    requires Run(happenings).Some? && Allowed(Run(happenings).value, h)
    ensures Run(happenings + [h]) == Some(Happen(Run(happenings).value, h))
  {
    assert (happenings + [h])[..|happenings|] == happenings;
  }

  /** The run of an applied list, in a system where nobody works on the database. */
  function Again(list: seq<Migration>, k: nat, endings: seq<Ending>): seq<Happening>
    requires |endings| == 4
  {
    [Deploys(list)] + [Advances(k, endings[0])] + [Advances(k, endings[1])] + [Advances(k, endings[2])]
    + [Advances(k, endings[3])]
  }

  /** The system with one more run of the list, so far on. */
  function With(sys: System, list: seq<Migration>, phase: Phase, holder: Option<nat>): System {
    sys.(runners := sys.runners + [Runner(list, phase)], holder := holder)
  }

  /** One step of the newest run of an applied list, which has the lock or, to begin with, finds it free. */
  lemma NewestRunAdvances(sys: System, list: seq<Migration>, phase: Phase, ending: Ending)
    requires IsComplete(sys.db, list) && phase in {Waiting, Locked, MustReadHistory, Applying(|list|)}
    ensures var k := |sys.runners|;
            var now := With(sys, list, phase, if phase == Waiting then None else Some(k));
            var next := if phase == Waiting then Locked else if phase == Locked then MustReadHistory
                        else if phase == MustReadHistory then Applying(|list|) else Succeeded;
            && Allowed(now, Advances(k, ending))
            && Happen(now, Advances(k, ending)) == With(sys, list, next, if next == Succeeded then None else Some(k))
  {
    assert Records(list)[..|list|] == Records(list);
    forall p: Phase, q: Phase
      ensures (sys.runners + [Runner(list, p)])[|sys.runners| := Runner(list, q)] == sys.runners + [Runner(list, q)]
    {
    }
  }

  /**
   * With the lock free, an applied list can be run again from start to end; the run succeeds and leaves
   * the whole system as it was, but for itself.
   */
  lemma RepeatedRunIsANoOp(happenings: seq<Happening>, list: seq<Migration>, endings: seq<Ending>)
    requires Run(happenings).Some? && |endings| == 4
    requires var sys := Run(happenings).value;
             IsComplete(sys.db, list) && sys.holder.None? && Allowed(sys, Deploys(list))
    ensures var sys := Run(happenings).value;
            Run(happenings + Again(list, |sys.runners|, endings))
            == Some(sys.(runners := sys.runners + [Runner(list, Succeeded)]))
  {
    var sys := Run(happenings).value;
    var k := |sys.runners|;
    var one := happenings + [Deploys(list)];
    var two := one + [Advances(k, endings[0])];
    var three := two + [Advances(k, endings[1])];
    var four := three + [Advances(k, endings[2])];
    RunContinues(happenings, Deploys(list));
    NewestRunAdvances(sys, list, Waiting, endings[0]);
    RunContinues(one, Advances(k, endings[0]));
    NewestRunAdvances(sys, list, Locked, endings[1]);
    RunContinues(two, Advances(k, endings[1]));
    NewestRunAdvances(sys, list, MustReadHistory, endings[2]);
    RunContinues(three, Advances(k, endings[2]));
    NewestRunAdvances(sys, list, Applying(|list|), endings[3]);
    RunContinues(four, Advances(k, endings[3]));
    assert happenings + Again(list, k, endings) == four + [Advances(k, endings[3])];
  }

  // ----- any number of runs at once

  /** Everybody runs the list that is already applied. */
  ghost predicate AllRepeat(sys: System, list: seq<Migration>) {
    IsComplete(sys.db, list) && forall k | 0 <= k < |sys.runners| :: sys.runners[k].list == list
  }

  /** How many steps of its own a run of an applied list still takes. */
  function StepsLeft(p: Phase): nat {
    match p
    case Waiting => 4
    case Locked => 3
    case MustReadHistory => 2
    case Applying(_) => 1
    case _ => 0
  }

  lemma RepeatingRunnersAreUpToDate(sys: System, list: seq<Migration>, applied: seq<Migration>, k: nat)
    requires SystemInv(sys, applied) && AllRepeat(sys, list) && k < |sys.runners|
    ensures var p := sys.runners[k].phase;
            !p.MustBeEmpty? && !p.MustCreateHistory? && (p.Applying? ==> p.next == |list|)
  {
    assert RunnerInv(sys.runners[k], applied, sys.db.tracked);
    assert |Records(applied)| == |Records(list)|;
  }

  /** No event changes the database's history or schema, and a run only ends otherwise than well by dying. */
  lemma RepeatingStep(sys: System, list: seq<Migration>, applied: seq<Migration>, h: Happening)
    requires SystemInv(sys, applied) && AllRepeat(sys, list)
    requires Allowed(sys, h) && (h.Deploys? ==> h.list == list)
    ensures var later := Happen(sys, h);
            && AllRepeat(later, list) && |sys.runners| <= |later.runners|
            && later.db == sys.db.(foreign := later.db.foreign)
            && (forall k | 0 <= k < |sys.runners| ::
                  if h == Dies(k) then later.runners[k].phase == Ended
                  else if h.Advances? && h.k == k && sys.runners[k].phase != Ended then
                    later.runners[k].phase != Ended
                    && StepsLeft(later.runners[k].phase)
                       == (if StepsLeft(sys.runners[k].phase) == 0 then 0 else StepsLeft(sys.runners[k].phase) - 1)
                  else later.runners[k] == sys.runners[k])
            && (forall k | |sys.runners| <= k < |later.runners| :: later.runners[k].phase == Waiting)
  {
    if h.Advances? {
      RepeatingRunnersAreUpToDate(sys, list, applied, h.k);
      assert Records(list)[..|list|] == Records(list);
    }
  }

  /** The steps runner k has taken. */
  function OwnSteps(more: seq<Happening>, k: nat): nat {
    if more == [] then 0
    else OwnSteps(more[..|more| - 1], k) + (if more[|more| - 1].Advances? && more[|more| - 1].k == k then 1 else 0)
  }

  /** After these events of a run, seen from the moment the list was applied. */
  ghost predicate Repeated(sys: System, later: System, more: seq<Happening>, list: seq<Migration>) {
    && AllRepeat(later, list) && |sys.runners| <= |later.runners|
    && later.db == sys.db.(foreign := later.db.foreign)
    && (forall k | |sys.runners| <= k < |later.runners| && Dies(k) !in more ::
          later.runners[k].phase != Ended
          && StepsLeft(later.runners[k].phase) == (if OwnSteps(more, k) <= 4 then 4 - OwnSteps(more, k) else 0))
    && (forall k | |later.runners| <= k :: OwnSteps(more, k) == 0)
  }

  lemma OneMoreRepeats(sys: System, before: System, more: seq<Happening>, list: seq<Migration>, h: Happening,
                       applied: seq<Migration>)
    requires SystemInv(before, applied) && Repeated(sys, before, more, list)
    requires Allowed(before, h) && (h.Deploys? ==> h.list == list)
    ensures Repeated(sys, Happen(before, h), more + [h], list)
  {
    RepeatingStep(before, list, applied, h);
    var later := Happen(before, h);
    assert (more + [h])[..|more|] == more;
    forall k | |sys.runners| <= k < |later.runners| && Dies(k) !in more + [h]
      ensures later.runners[k].phase != Ended
      ensures StepsLeft(later.runners[k].phase)
              == (if OwnSteps(more + [h], k) <= 4 then 4 - OwnSteps(more + [h], k) else 0)
    {
      assert (more + [h])[|more|] == h;
      assert Dies(k) !in more && Dies(k) != h;
    }
  }

  lemma {:induction false} RunsRepeat(happenings: seq<Happening>, more: seq<Happening>, list: seq<Migration>)
    requires Run(happenings + more).Some?
    requires Run(happenings).Some? && AllRepeat(Run(happenings).value, list)
    requires forall h | h in more && h.Deploys? :: h.list == list
    ensures Repeated(Run(happenings).value, Run(happenings + more).value, more, list)
    decreases |more|
  {
    if more == [] {
      assert happenings + more == happenings;
    } else {
      var n := |more| - 1;
      var init := more[..n];
      assert (happenings + more)[..|happenings + more| - 1] == happenings + init;
      assert more == init + [more[n]];
      RunsRepeat(happenings, init, list);
      var applied := RunsKeepInv(happenings + init);
      OneMoreRepeats(Run(happenings).value, Run(happenings + init).value, init, list, more[n], applied);
    }
  }

  /**
   * However many runs of an applied list overlap, wait for the lock or die: history and schema stay as
   * they were, and a new run that does not die has succeeded exactly when it has taken its four steps.
   */
  lemma RepeatedRunsSucceed(happenings: seq<Happening>, more: seq<Happening>, list: seq<Migration>, k: nat)
    requires Run(happenings + more).Some?
    requires Run(happenings).Some? && AllRepeat(Run(happenings).value, list)
    requires forall h | h in more && h.Deploys? :: h.list == list
    ensures var (sys, later) := (Run(happenings).value, Run(happenings + more).value);
            && AllRepeat(later, list)
            && later.db == sys.db.(foreign := later.db.foreign)
            && (|sys.runners| <= k < |later.runners| && Dies(k) !in more ==>
                 && later.runners[k].phase != Ended
                 && (later.runners[k].phase == Succeeded <==> OwnSteps(more, k) >= 4))
  {
    RunsRepeat(happenings, more, list);
    var later := Run(happenings + more).value;
    if k < |later.runners| {
      var applied := RunsKeepInv(happenings + more);
      RepeatingRunnersAreUpToDate(later, list, applied, k);
    }
  }

  /** When one run of the only deployed list has succeeded, every other run of it is a repetition. */
  lemma SuccessStartsRepetition(happenings: seq<Happening>, k: nat)
    requires Run(happenings).Some? && k < |Run(happenings).value.runners|
    requires var sys := Run(happenings).value;
             sys.runners[k].phase == Succeeded
             && forall l | 0 <= l < |sys.runners| :: sys.runners[l].list == sys.runners[k].list
    ensures AllRepeat(Run(happenings).value, Run(happenings).value.runners[k].list)
  {
    SuccessMeansComplete(happenings, k);
  }
}
