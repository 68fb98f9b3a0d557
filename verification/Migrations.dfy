/** Startup migrations and their status table, with a process that may die between any two statements. */
module Migrations {

  datatype Status = Running | Applied | Failed

  /** The status rows that survive a crash, and a history variable: the bodies that ran to success, in order. */
  datatype Disk = Disk(status: map<string, Status>, completed: seq<string>)

  /** How one tracked migration fares: the statements it gets through before the process dies or a statement
    * errs (look up, mark running, run the body, record the result), and what its body returns. */
  datatype Fate = Fate(statements: nat, bodyOk: bool)

  datatype Outcome = Done | Refused | BodyFailed | Died

  function Mark(d: Disk, name: string, status: Status): Disk { d.(status := d.status[name := status]) }

  function RunBody(d: Disk, name: string, ok: bool): Disk {
    if ok then d.(completed := d.completed + [name]) else d
  }

  predicate Marked(d: Disk, name: string, status: Status) { name in d.status && d.status[name] == status }

  function Attempt(d: Disk, name: string, fate: Fate): (Disk, Outcome) {
    if fate.statements < 1 then (d, Died)
    else if Marked(d, name, Applied) then (d, Done)
    else if Marked(d, name, Running) then (d, Refused)
    else if fate.statements < 2 then (d, Died)
    else if fate.statements < 3 then (Mark(d, name, Running), Died)
    else
      var ran := RunBody(Mark(d, name, Running), name, fate.bodyOk);
      if fate.statements < 4 then (ran, Died)
      else if fate.bodyOk then (Mark(ran, name, Applied), Done)
      else (Mark(ran, name, Failed), BodyFailed)
  }

  /** A startup goes through the list and stops at the first migration that is not done. */
  function StartupFrom(d: Disk, names: seq<string>, fates: nat -> Fate, i: nat): (Disk, Outcome)
    requires i <= |names|
    decreases |names| - i
  {
    if i == |names| then (d, Done)
    else
      var (after, outcome) := Attempt(d, names[i], fates(i));
      if outcome == Done then StartupFrom(after, names, fates, i + 1) else (after, outcome)
  }

  /** The disk after any number of startups, each with its own fates. */
  function Startups(d: Disk, names: seq<string>, history: seq<nat -> Fate>): Disk {
    if history == [] then d
    else StartupFrom(Startups(d, names, history[..|history| - 1]), names, history[|history| - 1], 0).0
  }

  class Tracker {
    var status: map<string, Status>
    ghost var completed: seq<string>

    ghost function Value(): Disk
      reads this
    {
      Disk(status, completed)
    }

    constructor ()
      ensures Value() == Disk(map[], [])
    {
      status, completed := map[], [];
    }

    method RunTracked(name: string, fate: Fate) returns (outcome: Outcome)
      modifies this
      ensures (Value(), outcome) == Attempt(old(Value()), name, fate)
    {
      if fate.statements < 1 {
        return Died;
      }
      if name in status {
        if status[name] == Applied {
          return Done;
        }
        if status[name] == Running {
          return Refused;
        }
      }
      if fate.statements < 2 {
        return Died;
      }
      status := status[name := Running];
      if fate.statements < 3 {
        return Died;
      }
      if fate.bodyOk {
        completed := completed + [name];
      }
      if fate.statements < 4 {
        return Died;
      }
      if fate.bodyOk {
        status := status[name := Applied];
        return Done;
      }
      status := status[name := Failed];
      return BodyFailed;
    }

    method Startup(names: seq<string>, fates: nat -> Fate) returns (outcome: Outcome)
      modifies this
      ensures (Value(), outcome) == StartupFrom(old(Value()), names, fates, 0)
    {
      for i := 0 to |names|
        invariant StartupFrom(Value(), names, fates, i) == StartupFrom(old(Value()), names, fates, 0)
      {
        outcome := RunTracked(names[i], fates(i));
        if outcome != Done {
          return;
        }
      }
      outcome := Done;
    }
  }

  // ---- What the status table can look like ----

  predicate Distinct(names: seq<string>) {
    forall i, j :: 0 <= i < j < |names| ==> names[i] != names[j]
  }

  /** The first `k` migrations are applied, the next may be running or failed, the rest have no row. Only a
    * running row can hide that its body already finished. */
  predicate InOrder(d: Disk, names: seq<string>, k: nat) {
    && k <= |names|
    && (forall i :: 0 <= i < k ==> Marked(d, names[i], Applied))
    && (forall i :: k < i < |names| ==> names[i] !in d.status)
    && (k < |names| ==> !Marked(d, names[k], Applied))
    && (d.completed == names[..k] || (k < |names| && Marked(d, names[k], Running) && d.completed == names[..k + 1]))
  }

  /** One tracked migration moves the boundary by at most one, and only by finishing. */
  lemma AttemptKeeps(d: Disk, names: seq<string>, k: nat, fate: Fate)
    requires Distinct(names) && InOrder(d, names, k) && k < |names|
    ensures var (after, outcome) := Attempt(d, names[k], fate);
            InOrder(after, names, if outcome == Done then k + 1 else k)
  {
    assert names[..k + 1] == names[..k] + [names[k]];
  }

  lemma {:induction false} StartupKeeps(d: Disk, names: seq<string>, k: nat, fates: nat -> Fate, i: nat) returns (reached: nat)
    requires Distinct(names) && InOrder(d, names, k) && i <= k
    ensures var (after, outcome) := StartupFrom(d, names, fates, i);
            && InOrder(after, names, reached) && k <= reached
            && (outcome == Done ==> reached == |names|)
    decreases |names| - i
  {
    reached := k;
    if i < |names| {
      var (after, outcome) := Attempt(d, names[i], fates(i));
      if i < k {
        assert Marked(d, names[i], Applied);
        if outcome == Done {
          reached := StartupKeeps(d, names, k, fates, i + 1);
        }
      } else {
        AttemptKeeps(d, names, k, fates(k));
        if outcome == Done {
          reached := StartupKeeps(after, names, k + 1, fates, i + 1);
        }
      }
    }
  }

  lemma {:induction false} StartupsKeep(names: seq<string>, history: seq<nat -> Fate>) returns (reached: nat)
    requires Distinct(names)
    ensures InOrder(Startups(Disk(map[], []), names, history), names, reached)
  {
    if history == [] {
      reached := 0;
    } else {
      var earlier := StartupsKeep(names, history[..|history| - 1]);
      reached := StartupKeeps(Startups(Disk(map[], []), names, history[..|history| - 1]), names, earlier,
                              history[|history| - 1], 0);
    }
  }

  /** Whatever crashes happen over any number of startups, the table reads applied, then at most one row that is
    * running or failed, then nothing; and the bodies that finished are a prefix of the list, each finished once. */
  lemma StatusIsInOrder(names: seq<string>, history: seq<nat -> Fate>) returns (k: nat)
    requires Distinct(names)
    ensures InOrder(Startups(Disk(map[], []), names, history), names, k)
    ensures Startups(Disk(map[], []), names, history).completed <= names
    ensures Distinct(Startups(Disk(map[], []), names, history).completed)
  {
    k := StartupsKeep(names, history);
    assert names[..k] <= names;
    if k < |names| {
      assert names[..k + 1] <= names;
    }
  }

  // ---- When startups can still finish ----

  lemma {:induction false} RunningRowStops(d: Disk, names: seq<string>, k: nat, fates: nat -> Fate, i: nat)
    requires InOrder(d, names, k) && k < |names| && Marked(d, names[k], Running) && i <= k
    ensures StartupFrom(d, names, fates, i).0 == d && StartupFrom(d, names, fates, i).1 in {Refused, Died}
    decreases |names| - i
  {
    if i < k {
      assert Marked(d, names[i], Applied);
      RunningRowStops(d, names, k, fates, i + 1);
    }
  }

  /** A row left running by a crash stops every later startup, even when its body had already finished. */
  lemma {:induction false} StuckForGood(d: Disk, names: seq<string>, k: nat, history: seq<nat -> Fate>)
    requires InOrder(d, names, k) && k < |names| && Marked(d, names[k], Running)
    ensures Startups(d, names, history) == d
  {
    if history != [] {
      StuckForGood(d, names, k, history[..|history| - 1]);
      RunningRowStops(d, names, k, history[|history| - 1], 0);
    }
  }

  function Untroubled(i: nat): Fate { Fate(4, true) }

  lemma {:induction false} UntroubledFinishes(d: Disk, names: seq<string>, k: nat, i: nat)
    requires Distinct(names) && InOrder(d, names, k) && i <= k
    requires k < |names| ==> !Marked(d, names[k], Running)
    ensures StartupFrom(d, names, Untroubled, i).1 == Done
    decreases |names| - i
  {
    if i < k {
      assert Marked(d, names[i], Applied);
      UntroubledFinishes(d, names, k, i + 1);
    } else if i < |names| {
      AttemptKeeps(d, names, k, Untroubled(k));
      UntroubledFinishes(Attempt(d, names[i], Untroubled(i)).0, names, k + 1, i + 1);
    }
  }

  /** A startup that gets through the whole list is possible exactly when no row is left running; a failed
    * migration is simply tried again. */
  lemma CanFinishIff(d: Disk, names: seq<string>, k: nat)
    requires Distinct(names) && InOrder(d, names, k)
    ensures (exists fates: nat -> Fate :: StartupFrom(d, names, fates, 0).1 == Done) <==>
            !(k < |names| && Marked(d, names[k], Running))
  {
    if k < |names| && Marked(d, names[k], Running) {
      forall fates: nat -> Fate ensures StartupFrom(d, names, fates, 0).1 != Done {
        RunningRowStops(d, names, k, fates, 0);
      }
    } else {
      UntroubledFinishes(d, names, k, 0);
      assert StartupFrom(d, names, Untroubled, 0).1 == Done;
    }
  }

  /** A startup that succeeds leaves every migration applied and every body finished. */
  lemma SuccessMeansAllApplied(d: Disk, names: seq<string>, k: nat, fates: nat -> Fate)
    requires Distinct(names) && InOrder(d, names, k)
    ensures var (after, outcome) := StartupFrom(d, names, fates, 0);
            outcome == Done ==> after.completed == names && forall i :: 0 <= i < |names| ==> Marked(after, names[i], Applied)
  {
    var reached := StartupKeeps(d, names, k, fates, 0);
    assert names[..|names|] == names;
  }
}
