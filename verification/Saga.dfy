/** Multi-step workflows with compensation: the orchestrator, its context, and what a run guarantees. */
module Saga {
  import opened Tables

  /** A handler either finishes or raises; raising, it may already have changed the world. */
  datatype HandlerResult<W> = Done(world: W) | Raised(world: W)

  datatype Step<!W> = Step(name: string, handler: W -> HandlerResult<W>, compensation: Option<W -> HandlerResult<W>>)

  datatype Outcome = Completed | Failed(step: string)

  // ----- what a run does, as a function of the steps before position n

  function RemoveFirst<T(==)>(s: seq<T>, x: T): seq<T> {
    if s == [] then [] else if s[0] == x then s[1..] else [s[0]] + RemoveFirst(s[1..], x)
  }

  /** The first occurrence goes, the rest keep their order. */
  lemma {:induction false} RemovesFirst<T>(s: seq<T>, x: T) returns (i: nat)
    requires x in s
    ensures i < |s| && s[i] == x && x !in s[..i] && RemoveFirst(s, x) == s[..i] + s[i + 1..]
    decreases |s|
  {
    i := 0;
    if s[0] != x {
      var j := RemovesFirst(s[1..], x);
      i := j + 1;
      assert s[..i] == [s[0]] + s[1..][..j];
    }
  }

  /** The forward pass so far: `ran` lists the positions of the steps that finished. */
  datatype Progress<W> = Progress(world: W, pending: seq<string>, completed: seq<string>, ran: seq<nat>,
                                  failed: Option<nat>)

  /** The step at position `k`, unless a step has already raised or this one is not pending. */
  function Advance<W>(p: Progress<W>, step: Step<W>, k: nat): Progress<W> {
    if p.failed.Some? || step.name !in p.pending then p
    else
      match step.handler(p.world)
      case Done(w) => Progress(w, RemoveFirst(p.pending, step.name), p.completed + [step.name], p.ran + [k], None)
      case Raised(w) => p.(world := w, failed := Some(k))
  }

  function Forward<W>(steps: seq<Step<W>>, n: nat, world: W, pending: seq<string>, completed: seq<string>): Progress<W>
    requires n <= |steps|
  {
    if n == 0 then Progress(world, pending, completed, [], None)
    else Advance(Forward(steps, n - 1, world, pending, completed), steps[n - 1], n - 1)
  }

  ghost predicate Within(ran: seq<nat>, n: nat) { forall i :: 0 <= i < |ran| ==> ran[i] < n }

  /** The world after compensating the steps listed, last first; a raising compensation is passed over. */
  ghost function Undone<W>(steps: seq<Step<W>>, ran: seq<nat>, world: W): W
    requires Within(ran, |steps|)
  {
    if ran == [] then world
    else
      var last := |ran| - 1;
      var undo := steps[ran[last]].compensation;
      Undone(steps, ran[..last], if undo.Some? then undo.value(world).world else world)
  }

  ghost predicate Increasing(s: seq<nat>) { forall i, j :: 0 <= i < j < |s| ==> s[i] < s[j] }

  ghost predicate Decreasing(s: seq<nat>) { forall i, j :: 0 <= i < j < |s| ==> s[i] > s[j] }

  /** The compensations called are those of the steps that ran, each once, in reverse order. */
  ghost predicate Reverses<W>(steps: seq<Step<W>>, ran: seq<nat>, called: seq<nat>) {
    && Decreasing(called)
    && forall k :: k in called <==> k in ran && k < |steps| && steps[k].compensation.Some?
  }

  /** How a run ends: completed, or failed with the finished steps compensated in reverse. */
  ghost predicate Ended<W>(steps: seq<Step<W>>, p: Progress<W>, world: W, outcome: Outcome, called: seq<nat>) {
    if p.failed.None? then outcome == Completed && world == p.world && called == []
    else
      && p.failed.value < |steps| && outcome == Failed(steps[p.failed.value].name)
      && Within(p.ran, |steps|) && world == Undone(steps, p.ran, p.world) && Reverses(steps, p.ran, called)
  }

  lemma NothingRun<W>(steps: seq<Step<W>>, world: W, pending: seq<string>, completed: seq<string>)
    ensures Forward(steps, 0, world, pending, completed) == Progress(world, pending, completed, [], None)
    ensures Increasing([]) && Within([], 0)
  {
  }

  lemma OneStep<W>(steps: seq<Step<W>>, n: nat, world: W, pending: seq<string>, completed: seq<string>)
    requires n < |steps| && Forward(steps, n, world, pending, completed).failed.None?
    ensures
      var p, q := Forward(steps, n, world, pending, completed), Forward(steps, n + 1, world, pending, completed);
      var step := steps[n];
      if step.name !in p.pending then q == p
      else
        match step.handler(p.world)
        case Done(w) =>
          q == Progress(w, RemoveFirst(p.pending, step.name), p.completed + [step.name], p.ran + [n], None)
        case Raised(w) => q == p.(world := w, failed := Some(n))
  {
    hide RemoveFirst;
  }

  lemma StillInOrder(ran: seq<nat>, n: nat)
    requires Increasing(ran) && Within(ran, n)
    ensures Within(ran, n + 1) && Increasing(ran + [n]) && Within(ran + [n], n + 1)
  {
  }

  lemma WithinMore(ran: seq<nat>, n: nat, m: nat)
    requires Within(ran, n) && n <= m
    ensures Within(ran, m)
  {
  }

  class WorkflowContext {
    var stepsCompleted: seq<string>
    var stepsPending: seq<string>

    constructor (pending: seq<string>)
      ensures stepsPending == pending && stepsCompleted == []
    {
      stepsPending, stepsCompleted := pending, [];
    }

    method MarkStepComplete(step: string)
      modifies this
      ensures stepsPending == RemoveFirst(old(stepsPending), step)
      ensures stepsCompleted == old(stepsCompleted) + [step]
    {
      if step in stepsPending {
        stepsPending := RemoveFirst(stepsPending, step);
      } else {
        NothingToRemove(stepsPending, step);
      }
      stepsCompleted := stepsCompleted + [step];
    }

    predicate IsComplete()
      reads this
    {
      |stepsPending| == 0
    }
  }

  lemma {:induction false} NothingToRemove<T>(s: seq<T>, x: T)
    requires x !in s
    ensures RemoveFirst(s, x) == s
    decreases |s|
  {
    if s != [] {
      NothingToRemove(s[1..], x);
    }
  }

  /** `world` stands for everything the handlers act on. */
  class WorkflowOrchestrator<W> {
    var steps: seq<Step<W>>
    var world: W

    constructor (world: W)
      ensures steps == [] && this.world == world
    {
      this.steps, this.world := [], world;
    }

    method AddStep(name: string, handler: W -> HandlerResult<W>, compensation: Option<W -> HandlerResult<W>>)
      modifies this
      ensures steps == old(steps) + [Step(name, handler, compensation)] && world == old(world)
    {
      steps := steps + [Step(name, handler, compensation)];
    }

    /** Runs the pending steps in order. `called` lists the compensations run, by step position. */
    method Execute(given: WorkflowContext?) returns (ctx: WorkflowContext, outcome: Outcome, called: seq<nat>)
      modifies this, given
      ensures steps == old(steps)
      ensures given != null ==> ctx == given
      ensures given == null ==> fresh(ctx)
      ensures
        var p := Forward(steps, |steps|, old(world), if given == null then Names(steps) else old(given.stepsPending),
                         if given == null then [] else old(given.stepsCompleted));
        ctx.stepsPending == p.pending && ctx.stepsCompleted == p.completed && Ended(steps, p, world, outcome, called)
    {
      hide Forward, Undone, Reverses, Increasing, Names;
      if given == null {
        ctx := new WorkflowContext(Names(steps));
      } else {
        ctx := given;
      }
      var ran, failed := RunSteps(ctx);
      if failed.Some? {
        called := Compensate(ran);
        return ctx, Failed(steps[failed.value].name), called;
      }
      return ctx, Completed, [];
    }

    /** The forward loop, ended by the last step or by one that raises. */
    method RunSteps(ctx: WorkflowContext) returns (ran: seq<nat>, failed: Option<nat>)
      modifies this`world, ctx
      ensures Forward(steps, |steps|, old(world), old(ctx.stepsPending), old(ctx.stepsCompleted)) ==
              Progress(world, ctx.stepsPending, ctx.stepsCompleted, ran, failed)
      ensures Increasing(ran) && Within(ran, |steps|) && (failed.Some? ==> failed.value < |steps|)
    {
      hide Forward, RemoveFirst, Increasing, Within;
      ghost var start, pending, completed := world, ctx.stepsPending, ctx.stepsCompleted;
      ran := [];
      NothingRun(steps, start, pending, completed);
      for n := 0 to |steps|
        invariant Forward(steps, n, start, pending, completed) ==
                  Progress(world, ctx.stepsPending, ctx.stepsCompleted, ran, None)
        invariant Increasing(ran) && Within(ran, n)
      {
        var step := steps[n];
        OneStep(steps, n, start, pending, completed);
        StillInOrder(ran, n);
        if step.name in ctx.stepsPending {
          var result := step.handler(world);
          world := result.world;
          if result.Raised? {
            FailureLasts(steps, n + 1, |steps|, start, pending, completed);
            WithinMore(ran, n, |steps|);
            return ran, Some(n);
          }
          ctx.MarkStepComplete(step.name);
          ran := ran + [n];
        }
      }
      return ran, None;
    }

    /** Calls the compensations of the finished steps in reverse, swallowing what they raise. */
    method Compensate(ran: seq<nat>) returns (called: seq<nat>)
      requires Increasing(ran) && Within(ran, |steps|)
      modifies this`world
      ensures world == Undone(steps, ran, old(world))
      ensures Reverses(steps, ran, called)
    {
      called := [];
      var n := |ran|;
      assert ran[..n] == ran;
      while n > 0
        invariant 0 <= n <= |ran|
        invariant Undone(steps, ran[..n], world) == Undone(steps, ran, old(world))
        invariant Decreasing(called)
        invariant forall k :: k in called <==> k in ran[n..] && k < |steps| && steps[k].compensation.Some?
      {
        n := n - 1;
        assert ran[..n + 1][..n] == ran[..n] && ran[n..] == [ran[n]] + ran[n + 1..];
        var undo := steps[ran[n]].compensation;
        if undo.Some? {
          world := undo.value(world).world;
          forall i | 0 <= i < |called| ensures called[i] > ran[n] {
            assert called[i] in called;
          }
          called := called + [ran[n]];
        }
      }
    }
  }

  function Names<W>(steps: seq<Step<W>>): seq<string> {
    seq(|steps|, i requires 0 <= i < |steps| => steps[i].name)
  }

  /** Once a step has raised, the forward pass does nothing more. */
  lemma {:induction false} FailureLasts<W>(steps: seq<Step<W>>, n: nat, m: nat, world: W,
                                           pending: seq<string>, completed: seq<string>)
    requires n <= m <= |steps| && Forward(steps, n, world, pending, completed).failed.Some?
    ensures Forward(steps, m, world, pending, completed) == Forward(steps, n, world, pending, completed)
    decreases m
  {
    if n < m {
      FailureLasts(steps, n, m - 1, world, pending, completed);
    }
  }

  // ----- what every run keeps

  lemma {:induction false} RemoveFirstCounts<T>(s: seq<T>, x: T)
    requires x in s
    ensures multiset(RemoveFirst(s, x)) + multiset{x} == multiset(s)
    decreases |s|
  {
    assert s == [s[0]] + s[1..];
    if s[0] != x {
      RemoveFirstCounts(s[1..], x);
    }
  }

  lemma AdvanceConserves<W>(p: Progress<W>, step: Step<W>, k: nat)
    ensures multiset(Advance(p, step, k).pending) + multiset(Advance(p, step, k).completed) ==
            multiset(p.pending) + multiset(p.completed)
  {
    if step.name in p.pending {
      RemoveFirstCounts(p.pending, step.name);
    }
  }

  /** Pending and completed steps together are conserved, whether the run succeeds, fails or is still going. */
  lemma {:induction false} StepsConserved<W>(steps: seq<Step<W>>, n: nat, world: W, pending: seq<string>,
                                             completed: seq<string>)
    requires n <= |steps|
    ensures multiset(Forward(steps, n, world, pending, completed).pending) +
            multiset(Forward(steps, n, world, pending, completed).completed) == multiset(pending) + multiset(completed)
    decreases n
  {
    hide Advance, RemoveFirst;
    if n > 0 {
      StepsConserved(steps, n - 1, world, pending, completed);
      AdvanceConserves(Forward(steps, n - 1, world, pending, completed), steps[n - 1], n - 1);
    }
  }

  ghost function NamesAt<W>(steps: seq<Step<W>>, ran: seq<nat>): seq<string>
    requires Within(ran, |steps|)
  {
    seq(|ran|, i requires 0 <= i < |ran| => steps[ran[i]].name)
  }

  /** What has run is listed in order, and a failed step is pending still. */
  ghost predicate InOrder<W>(steps: seq<Step<W>>, p: Progress<W>, n: nat, completed: seq<string>) {
    && n <= |steps| && Increasing(p.ran) && Within(p.ran, n)
    && p.completed == completed + NamesAt(steps, p.ran)
    && (p.failed.Some? ==> p.failed.value < n && steps[p.failed.value].name in p.pending && p.failed.value !in p.ran)
  }

  lemma AdvanceInOrder<W>(steps: seq<Step<W>>, p: Progress<W>, k: nat, completed: seq<string>)
    requires k < |steps| && InOrder(steps, p, k, completed)
    ensures InOrder(steps, Advance(p, steps[k], k), k + 1, completed)
  {
    hide RemoveFirst;
    assert NamesAt(steps, p.ran + [k]) == NamesAt(steps, p.ran) + [steps[k].name];
  }

  /** The completed list grows by the names of the steps that ran, in workflow order. */
  lemma {:induction false} CompletedInOrder<W>(steps: seq<Step<W>>, n: nat, world: W, pending: seq<string>,
                                               completed: seq<string>)
    requires n <= |steps|
    ensures InOrder(steps, Forward(steps, n, world, pending, completed), n, completed)
    decreases n
  {
    hide Advance;
    if n > 0 {
      CompletedInOrder(steps, n - 1, world, pending, completed);
      AdvanceInOrder(steps, Forward(steps, n - 1, world, pending, completed), n - 1, completed);
    }
  }

  lemma TakeOne<T>(left: seq<T>, all: multiset<T>, taken: seq<T>, x: T)
    requires multiset(left) == all - multiset(taken)
    ensures multiset(if x in left then RemoveFirst(left, x) else left) == all - multiset(taken + [x])
  {
    var before, after := multiset(taken), multiset(taken + [x]);
    var rest := if x in left then RemoveFirst(left, x) else left;
    if x in left {
      RemoveFirstCounts(left, x);
    } else {
      assert x !in multiset(left);
    }
    forall y ensures multiset(rest)[y] == (all - after)[y] {
      assert after[y] == before[y] + if y == x then 1 else 0;
      assert multiset(left)[y] == multiset(rest)[y] + if y == x && x in left then 1 else 0;
    }
  }

  lemma NothingLeftIff<T>(all: multiset<T>, taken: multiset<T>)
    ensures all - taken == multiset{} <==> all <= taken
  {
    if all - taken == multiset{} {
      forall x ensures all[x] <= taken[x] {
        assert (all - taken)[x] == 0;
      }
    }
  }

  lemma NextStillPending<T>(left: seq<T>, names: seq<T>, i: nat)
    requires i < |names| && multiset(left) == multiset(names) - multiset(names[..i])
    ensures names[i] in left
  {
    assert names == names[..i] + names[i..];
    assert names[i] in names[i..];
    assert names[i] in multiset(left);
  }

  lemma AdvanceTakes<W>(p: Progress<W>, step: Step<W>, k: nat)
    requires Advance(p, step, k).failed.None?
    ensures p.failed.None?
    ensures Advance(p, step, k).pending ==
            if step.name in p.pending then RemoveFirst(p.pending, step.name) else p.pending
    ensures step.name in p.pending ==>
              Advance(p, step, k).completed == p.completed + [step.name] && Advance(p, step, k).ran == p.ran + [k]
  {
  }

  /** A run that does not fail takes off the pending list exactly one occurrence per step of that name. */
  lemma {:induction false} PendingExact<W>(steps: seq<Step<W>>, n: nat, world: W, pending: seq<string>,
                                           completed: seq<string>)
    requires n <= |steps| && Forward(steps, n, world, pending, completed).failed.None?
    ensures multiset(Forward(steps, n, world, pending, completed).pending) ==
            multiset(pending) - multiset(Names(steps)[..n])
    decreases n
  {
    hide Advance, RemoveFirst;
    if n > 0 {
      var p, x := Forward(steps, n - 1, world, pending, completed), steps[n - 1].name;
      AdvanceTakes(p, steps[n - 1], n - 1);
      PendingExact(steps, n - 1, world, pending, completed);
      assert Names(steps)[..n] == Names(steps)[..n - 1] + [x];
      TakeOne(p.pending, multiset(pending), Names(steps)[..n - 1], x);
    }
  }

  /** A successful run leaves the context complete exactly when the workflow has a step for every pending name. */
  lemma SuccessCompletesIff<W>(steps: seq<Step<W>>, world: W, pending: seq<string>, completed: seq<string>)
    requires Forward(steps, |steps|, world, pending, completed).failed.None?
    ensures Forward(steps, |steps|, world, pending, completed).pending == [] <==>
            multiset(pending) <= multiset(Names(steps))
  {
    hide Forward;
    var left := Forward(steps, |steps|, world, pending, completed).pending;
    PendingExact(steps, |steps|, world, pending, completed);
    assert Names(steps)[..|steps|] == Names(steps);
    NothingLeftIff(multiset(pending), multiset(Names(steps)));
  }

  /** Started without a context, a successful run does every step once, in order. */
  lemma FreshRunDoesAll<W>(steps: seq<Step<W>>, world: W)
    requires Forward(steps, |steps|, world, Names(steps), []).failed.None?
    ensures Forward(steps, |steps|, world, Names(steps), []).pending == []
    ensures Forward(steps, |steps|, world, Names(steps), []).completed == Names(steps)
    ensures |Forward(steps, |steps|, world, Names(steps), []).ran| == |steps|
  {
    FreshPrefix(steps, |steps|, world);
    SuccessCompletesIff(steps, world, Names(steps), []);
    assert Names(steps)[..|steps|] == Names(steps);
  }

  lemma {:induction false} FreshPrefix<W>(steps: seq<Step<W>>, n: nat, world: W)
    requires n <= |steps| && Forward(steps, n, world, Names(steps), []).failed.None?
    ensures Forward(steps, n, world, Names(steps), []).completed == Names(steps)[..n]
    ensures |Forward(steps, n, world, Names(steps), []).ran| == n
    decreases n
  {
    hide Advance, RemoveFirst;
    if n > 0 {
      var names := Names(steps);
      AdvanceTakes(Forward(steps, n - 1, world, names, []), steps[n - 1], n - 1);
      FreshPrefix(steps, n - 1, world);
      PendingExact(steps, n - 1, world, names, []);
      NextStillPending(Forward(steps, n - 1, world, names, []).pending, names, n - 1);
      assert names[..n] == names[..n - 1] + [steps[n - 1].name];
    }
  }

  // ----- atomicity

  /** The step can be taken back: its compensation inverts it, or it has no effect; raising, it has had none. */
  ghost predicate Reversible<W(!new)>(step: Step<W>) {
    forall w :: match step.handler(w)
      case Done(next) => if step.compensation.Some? then step.compensation.value(next).world == w else next == w
      case Raised(next) => next == w
  }

  /** A failed run of reversible steps returns the world it started from. */
  lemma FailureRestores<W(!new)>(steps: seq<Step<W>>, world: W, pending: seq<string>, completed: seq<string>)
    requires forall k :: 0 <= k < |steps| ==> Reversible(steps[k])
    requires Forward(steps, |steps|, world, pending, completed).failed.Some?
    ensures
      var p := Forward(steps, |steps|, world, pending, completed);
      Within(p.ran, |steps|) && Undone(steps, p.ran, p.world) == world
  {
    UndoneRestores(steps, |steps|, world, pending, completed);
  }

  lemma AdvanceUndone<W(!new)>(steps: seq<Step<W>>, p: Progress<W>, k: nat)
    requires k < |steps| && Within(p.ran, k) && Reversible(steps[k])
    ensures Within(Advance(p, steps[k], k).ran, k + 1)
    ensures Undone(steps, Advance(p, steps[k], k).ran, Advance(p, steps[k], k).world) == Undone(steps, p.ran, p.world)
  {
    hide RemoveFirst;
    assert (p.ran + [k])[..|p.ran|] == p.ran;
  }

  lemma {:induction false} UndoneRestores<W(!new)>(steps: seq<Step<W>>, n: nat, world: W, pending: seq<string>,
                                                   completed: seq<string>)
    requires n <= |steps| && forall k :: 0 <= k < |steps| ==> Reversible(steps[k])
    ensures
      var p := Forward(steps, n, world, pending, completed);
      Within(p.ran, n) && Undone(steps, p.ran, p.world) == world
    decreases n
  {
    hide Advance, Reversible;
    if n > 0 {
      UndoneRestores(steps, n - 1, world, pending, completed);
      AdvanceUndone(steps, Forward(steps, n - 1, world, pending, completed), n - 1);
    }
  }
}
