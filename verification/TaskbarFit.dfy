/**
 The taskbar folding loop of src/utils/taskbarFit.js. The measurements are an oracle: one pair of
 widths per iteration, with no law at all, so the claims hold for every layout engine.
 */
module TaskbarFit {
  datatype Widths = Widths(scroll: int, client: int)

  type Measure = nat -> Widths

  predicate Overflows(w: Widths) { w.scroll > w.client + 1 }

  /** The state the loop changes through its setters; recover is the direction 'recover'. */
  datatype Bar = Bar(icon: bool, folded: nat, recover: bool)

  datatype Action = Done | SetIcon | UnsetIcon | FoldOne | UnfoldOne

  /** toShrink is the dir: 'shrink' of the source's step. */
  datatype Step = Step(action: Action, toShrink: bool)

  function NextFitStep(w: Widths, b: Bar, total: nat): Step {
    if Overflows(w) then
      if b.recover then Step(if b.icon then FoldOne else SetIcon, true)
      else if !b.icon then Step(SetIcon, false)
      else if b.folded < total then Step(FoldOne, false)
      else Step(Done, false)
    else if !b.recover then Step(Done, false)
    else if b.folded > 0 then Step(UnfoldOne, false)
    else if b.icon then Step(UnsetIcon, false)
    else Step(Done, true)
  }

  function Apply(b: Bar, s: Step): Bar {
    Bar(
      if s.action.SetIcon? then true else if s.action.UnsetIcon? then false else b.icon,
      if s.action.FoldOne? then b.folded + 1 else if s.action.UnfoldOne? && b.folded > 0 then b.folded - 1
      else b.folded,
      b.recover && !s.toShrink)
  }

  datatype Outcome = Outcome(bar: Bar, converged: bool, iterations: nat)

  /** The loop from iteration i on. */
  function Loop(b: Bar, measure: Measure, total: nat, i: nat, maxIters: nat): Outcome
    requires i <= maxIters
    decreases maxIters - i
  {
    if i == maxIters then Outcome(b, false, i)
    else
      var s := NextFitStep(measure(i), b, total);
      if s.action.Done? then Outcome(Apply(b, s), true, i)
      else Loop(Apply(b, s), measure, total, i + 1, maxIters)
  }

  class Taskbar {
    var iconMode: bool
    var overflowCount: nat
    var recovering: bool

    function View(): Bar
      reads this
    {
      Bar(iconMode, overflowCount, recovering)
    }

    constructor (b: Bar)
      ensures View() == b
    {
      iconMode, overflowCount, recovering := b.icon, b.folded, b.recover;
    }

    method RunFitLoop(measure: Measure, total: nat, maxIters: nat) returns (converged: bool, iterations: nat)
      modifies this
      ensures Outcome(View(), converged, iterations) == Loop(old(View()), measure, total, 0, maxIters)
    {
      for i := 0 to maxIters
        invariant Loop(View(), measure, total, i, maxIters) == Loop(old(View()), measure, total, 0, maxIters)
      {
        var step := NextFitStep(measure(i), View(), total);
        if step.toShrink { recovering := false; }
        match step.action {
          case Done => return true, i;
          case SetIcon => iconMode := true;
          case UnsetIcon => iconMode := false;
          case FoldOne => overflowCount := overflowCount + 1;
          case UnfoldOne => overflowCount := overflowCount - 1;
        }
      }
      return false, maxIters;
    }
  }

  /** How many more changes the loop can make, whatever it measures. */
  function Budget(b: Bar, total: nat): nat {
    if b.recover then b.folded + total + (if b.icon then 2 else 1)
    else (if b.icon then 0 else 1) + (if b.folded < total then total - b.folded else 0)
  }

  /** Every change uses up budget, and the direction never goes back to recover. */
  lemma ChangeSpendsBudget(w: Widths, b: Bar, total: nat)
    requires !NextFitStep(w, b, total).action.Done?
    ensures Budget(Apply(b, NextFitStep(w, b, total)), total) < Budget(b, total)
    ensures Apply(b, NextFitStep(w, b, total)).recover ==> b.recover
  {
  }

  lemma {:induction false} LoopWithinBudget(b: Bar, measure: Measure, total: nat, i: nat, maxIters: nat)
    requires i <= maxIters
    ensures var o := Loop(b, measure, total, i, maxIters);
      && o.iterations <= i + Budget(b, total)
      && (o.converged <==> o.iterations < maxIters)
      && (o.bar.recover ==> b.recover)
      && (o.converged ==> !Overflows(measure(o.iterations)) || (o.bar.icon && o.bar.folded >= total))
    decreases maxIters - i
  {
    if i < maxIters {
      var s := NextFitStep(measure(i), b, total);
      if !s.action.Done? {
        ChangeSpendsBudget(measure(i), b, total);
        LoopWithinBudget(Apply(b, s), measure, total, i + 1, maxIters);
      }
    }
  }

  /**
   For any measurements, starting with k folded chips out of `total`: at most k + total + 2 changes;
   the loop converges whenever it is allowed one iteration more; and it ends either fitting or with
   icons only and every chip folded.
   */
  lemma {:induction false} FitLoopConverges(b: Bar, measure: Measure, total: nat, maxIters: nat)
    ensures var o := Loop(b, measure, total, 0, maxIters);
      && o.iterations <= b.folded + total + 2
      && (maxIters > b.folded + total + 2 ==> o.converged)
      && (o.converged ==> !Overflows(measure(o.iterations)) || (o.bar.icon && o.bar.folded >= total))
  {
    LoopWithinBudget(b, measure, total, 0, maxIters);
  }

  /** A loop entered in the shrink direction is monotone: it only takes names away and folds more. */
  lemma {:induction false} ShrinkOnlyShrinks(b: Bar, measure: Measure, total: nat, i: nat, maxIters: nat)
    requires i <= maxIters && !b.recover
    ensures var o := Loop(b, measure, total, i, maxIters);
      && !o.bar.recover && (b.icon ==> o.bar.icon)
      && b.folded <= o.bar.folded
      && (o.bar.folded <= total || o.bar.folded == b.folded)
    decreases maxIters - i
  {
    if i < maxIters {
      var s := NextFitStep(measure(i), b, total);
      if !s.action.Done? {
        ShrinkOnlyShrinks(Apply(b, s), measure, total, i + 1, maxIters);
      }
    }
  }

  /** With some room below a cap that is no less than the total, the bounce cannot overshoot the cap. */
  lemma {:induction false} RecoverBelow(b: Bar, measure: Measure, total: nat, cap: nat, i: nat, maxIters: nat)
    requires i <= maxIters && total <= cap && (b.folded < cap || (b.folded <= cap && !b.icon))
    ensures Loop(b, measure, total, i, maxIters).bar.folded <= cap
    decreases maxIters - i
  {
    if i < maxIters {
      var s := NextFitStep(measure(i), b, total);
      if !s.action.Done? {
        if Apply(b, s).recover {
          RecoverBelow(Apply(b, s), measure, total, cap, i + 1, maxIters);
        } else {
          ShrinkOnlyShrinks(Apply(b, s), measure, total, i + 1, maxIters);
        }
      }
    }
  }

  /**
   The bounce of a recovery does not look at the total. From any start, also one with more chips folded
   than there are (a chip has gone since), more get folded than were folded and than there are exactly
   when a recovery starts with icons on, all chips folded, and the first measurement overflowing; and
   then it is one more than were folded.
   */
  lemma {:induction false} OvershootIff(b: Bar, measure: Measure, total: nat, maxIters: nat)
    ensures
      var o, most := Loop(b, measure, total, 0, maxIters), if b.folded < total then total else b.folded;
      && (o.bar.folded > most <==>
            maxIters > 0 && b.recover && b.icon && b.folded >= total && Overflows(measure(0)))
      && (o.bar.folded > most ==> o.bar.folded == b.folded + 1)
  {
    var most := if b.folded < total then total else b.folded;
    if maxIters > 0 && b.recover {
      if b.folded < total || !b.icon {
        RecoverBelow(b, measure, total, most, 0, maxIters);
      } else {
        var b1 := Apply(b, NextFitStep(measure(0), b, total));
        if Overflows(measure(0)) {
          ShrinkOnlyShrinks(b1, measure, total, 1, maxIters);
        } else {
          RecoverBelow(b1, measure, total, most, 1, maxIters);
        }
      }
    } else if maxIters > 0 {
      ShrinkOnlyShrinks(b, measure, total, 0, maxIters);
    }
  }

  /**
   Five chips folded, one of them gone since, and a first measurement that overflows: six of four are
   folded in the end.
   */
  lemma RecoveryAfterAChipWent(measure: Measure, maxIters: nat)
    requires maxIters > 0 && Overflows(measure(0))
    ensures Loop(Bar(true, 5, true), measure, 4, 0, maxIters).bar.folded == 6
  {
    OvershootIff(Bar(true, 5, true), measure, 4, maxIters);
  }

  // ------------------------------------------------------------ room, and no room

  /**
   A recovery that always finds room gives back one chip an iteration and then, when all are back, the
   names; then it is done, and shrinking from there on.
   */
  lemma {:induction false} RecoveryGivesBack(b: Bar, measure: Measure, total: nat, i: nat, maxIters: nat)
    requires i <= maxIters && b.recover
    requires forall j :: i <= j < maxIters ==> measure(j).scroll <= measure(j).client + 1
    ensures
      var left, steps := maxIters - i, b.folded + if b.icon then 1 else 0;
      Loop(b, measure, total, i, maxIters) ==
      if left <= b.folded then Outcome(Bar(b.icon, b.folded - left, true), false, maxIters)
      else if left <= steps then Outcome(Bar(false, 0, true), false, maxIters)
      else Outcome(Bar(false, 0, false), true, i + steps)
    decreases maxIters - i
  {
    if i < maxIters && (b.folded > 0 || b.icon) {
      RecoveryGivesBack(Apply(b, NextFitStep(measure(i), b, total)), measure, total, i + 1, maxIters);
    }
  }

  /** A bar that never finds room gives up the names and then one chip an iteration, until all are folded. */
  lemma {:induction false} ShrinkingTakesAway(b: Bar, measure: Measure, total: nat, i: nat, maxIters: nat)
    requires i <= maxIters && !b.recover && b.folded <= total
    requires forall j :: i <= j < maxIters ==> measure(j).scroll > measure(j).client + 1
    ensures
      var left, names := maxIters - i, if b.icon then 0 else 1;
      Loop(b, measure, total, i, maxIters) ==
      if left == 0 then Outcome(b, false, maxIters)
      else if left <= names + total - b.folded then Outcome(Bar(true, b.folded + left - names, false), false, maxIters)
      else Outcome(Bar(true, total, false), true, i + names + total - b.folded)
    decreases maxIters - i
  {
    if i < maxIters && (b.folded < total || !b.icon) {
      ShrinkingTakesAway(Apply(b, NextFitStep(measure(i), b, total)), measure, total, i + 1, maxIters);
    }
  }

  /**
   A bar that is shrinking stays as it is once it fits. A recovery that went too far takes one step back,
   the names if they were back and a chip if not, and is shrinking from there on.
   */
  lemma TurningPoints(b: Bar, measure: Measure, total: nat, i: nat, maxIters: nat)
    requires i < maxIters
    ensures
      var fits, rest := measure(i).scroll <= measure(i).client + 1, Loop(b, measure, total, i, maxIters);
      && (!b.recover && fits ==> rest == Outcome(b, true, i))
      && (b.recover && !fits ==>
            rest == Loop(Bar(true, if b.icon then b.folded + 1 else b.folded, false), measure, total, i + 1, maxIters))
  {
  }
}
