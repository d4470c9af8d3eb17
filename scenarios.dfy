/**
 * Worked runs of the model: small tours driven through their public
 * operations, with what a caller can conclude from the contracts alone.
 */
module Scenarios {
  import opened Optional
  import opened Steps
  import opened Display
  import opened Navigation

  /** A step anchored on element 0, with or without an `onComplete` hook and a `skipIf` predicate. */
  function Plain(n: int, hasOnComplete: bool, hasSkipIf: bool): Step {
    Step(n, "", "", None, None, Some(0), None, "bottom", "element", false, hasOnComplete, hasSkipIf)
  }

  const Defaults := Options([], "", "element", false, "")

  function NeverSkip(i: nat): bool { false }
  function AlwaysSkip(i: nat): bool { true }

  /**
   * One `nextStep` onto step `k` when that step has no `skipIf` and no step
   * carries a selector: the index lands on `k`, the steps array is unchanged,
   * and only the leaving hook and the display are logged.
   */
  method Forward(tour: Tour, skip: nat -> bool, k: nat) returns (advanced: bool)
    requires tour.Valid() && !tour.exited
    requires k < |tour.steps| && tour.current == (if k == 0 then None else Some(k - 1))
    requires !tour.steps[k].hasSkipIf
    requires forall i :: 0 <= i < |tour.steps| ==> tour.steps[i].elementSelector.None?
    modifies tour
    ensures tour.Valid() && !tour.exited && advanced
    ensures tour.current == Some(k) && tour.steps == old(tour.steps)
    ensures tour.log == old(tour.log) + LeaveHook(old(tour.steps), old(tour.current)) + [Shown(k)]
  {
    assert Inc(tour.current) == k;
    FirstShownIs(tour.steps, skip, k, k);
    advanced := tour.NextStep(skip);
  }

  /**
   * One `previousStep` from step `k + 1` back onto step `k` when step `k` has
   * no `skipIf` and no step carries a selector: the index lands on `k`, the
   * steps array is unchanged, and only the setup hook and the display are logged.
   */
  method Backward(tour: Tour, skip: nat -> bool, k: nat) returns (moved: bool)
    requires tour.Valid()
    requires k < |tour.steps| && tour.current == Some(k + 1)
    requires !tour.steps[k].hasSkipIf
    requires forall i :: 0 <= i < |tour.steps| ==> tour.steps[i].elementSelector.None?
    modifies tour
    ensures tour.Valid() && moved
    ensures tour.current == Some(k) && tour.steps == old(tour.steps)
    ensures tour.log == old(tour.log) + SetupHook(old(tour.steps), k) + [Shown(k)]
  {
    LastShownBelowIs(tour.steps, skip, k + 1, k);
    moved := tour.PreviousStep(skip);
  }

  /**
   * Three steps, none skipped, each with an `onComplete` hook: from the start,
   * four calls of `nextStep` return true, true, true, false; every step's hook
   * runs once, after the next step is decided; the "complete" callback receives
   * index 3, the value of the index after the final increment.
   */
  method ThreeStepsForward() returns (results: seq<bool>, ghost log: seq<Event>)
    ensures results == [true, true, true, false]
    ensures log == [Shown(0), StepCompleted(0), Shown(1), StepCompleted(1), Shown(2),
                    StepCompleted(2), TourCompleted(3), Exited]
  {
    var steps := [Plain(1, true, false), Plain(2, true, false), Plain(3, true, false)];
    var tour := new Tour(steps, Defaults, Page(map[], ["static"]), [{}], Some(0));
    var a := Forward(tour, NeverSkip, 0);
    var b := Forward(tour, NeverSkip, 1);
    var c := Forward(tour, NeverSkip, 2);
    var d := tour.NextStep(NeverSkip);
    results := [a, b, c, d];
    log := tour.log;
  }

  /**
   * Three steps whose middle one is always skipped: from step 0, `nextStep`
   * goes straight to step 2; the hook of step 0 runs and the skipped step's
   * hook never does.
   */
  method SkipMiddle() returns (current: Option<nat>, ghost log: seq<Event>)
    ensures current == Some(2)
    ensures log == [Shown(0), StepCompleted(0), Shown(2)]
  {
    var steps := [Plain(1, true, false), Plain(2, true, true), Plain(3, true, false)];
    var tour := new Tour(steps, Defaults, Page(map[], ["static"]), [{}], Some(0));
    var a := Forward(tour, AlwaysSkip, 0);
    var b := tour.NextStep(AlwaysSkip);
    current := tour.current;
    log := tour.log;
  }

  /** `previousStep` on the first step fails and changes nothing. */
  method BackFromFirst() returns (moved: bool, current: Option<nat>, ghost log: seq<Event>)
    ensures !moved && current == Some(0) && log == [Shown(0)]
  {
    var steps := [Plain(1, true, false), Plain(2, true, false)];
    var tour := new Tour(steps, Defaults, Page(map[], ["static"]), [{}], Some(0));
    var a := Forward(tour, NeverSkip, 0);
    moved := tour.PreviousStep(NeverSkip);
    current := tour.current;
    log := tour.log;
  }

  /**
   * Going back from step 2 to step 1 runs step 0's hook, which sets step 1 up,
   * and never the hook of the step being left.
   */
  method BackRunsSetupHook() returns (moved: bool, current: Option<nat>, ghost log: seq<Event>)
    ensures moved && current == Some(1)
    ensures log == [Shown(0), StepCompleted(0), Shown(1), StepCompleted(1), Shown(2), StepCompleted(0), Shown(1)]
  {
    var steps := [Plain(1, true, false), Plain(2, true, false), Plain(3, true, false)];
    var tour := new Tour(steps, Defaults, Page(map[], ["static"]), [{}], Some(0));
    var a := Forward(tour, NeverSkip, 0);
    var b := Forward(tour, NeverSkip, 1);
    var c := Forward(tour, NeverSkip, 2);
    moved := Backward(tour, NeverSkip, 1);
    current := tour.current;
    log := tour.log;
  }

  /**
   * A programmatic step naming "#missing" is built floating on the placeholder
   * (element 0); once "#missing" (element 1) is on the page, showing the step
   * rebinds it, writes the rebinding into the steps array, un-floats it and
   * moves the marker to element 1.
   */
  method LateElement() returns (step: Step, marked: bool)
    ensures step.element == Some(1) && step.position == DefaultPosition
    ensures marked
  {
    var input := StepInput(None, "hello", Selector("#missing"), None, "", "", None, None, None, false, false);
    var opts := Options([input], "", "element", false, "");
    var built := FetchProgrammatic([input], opts, map[], 0);
    assert built[0].element == Some(0) && built[0].position == Floating;
    var tour := new Tour(built, opts, Page(map[], ["static", "static"]), [{FloatingClass}, {}], Some(0));
    tour.page := Page(map["#missing" := 1], ["static", "static"]);
    var advanced := tour.NextStep(NeverSkip);
    step := tour.steps[0];
    marked := ShowMarker in tour.classes[1];
  }
}
