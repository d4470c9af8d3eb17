/**
 * The tour's navigation state machine (src/packages/tour/steps.ts, `nextStep`
 * and `previousStep`) and the in-place display of a step
 * (src/packages/tour/showElement.ts).
 *
 * The parts of `Tour` that live in tour.ts are modelled by the members marked
 * "tour.ts interface" below, with these assumed semantics: `isEnd` holds when
 * the current index is set and at or past the end of the steps;
 * `incrementCurrentStep` sets an unset index to 0 and otherwise adds 1;
 * `setCurrentStep` sets the index; `exit` marks the tour exited and touches
 * nothing else. Awaited `skipIf` results are the oracle `skip`, and hooks and
 * callbacks are events of the ghost log.
 */
module Navigation {
  import opened Optional
  import opened Steps
  import opened Display

  /** What the navigation invokes, in order. */
  datatype Event =
    | StepCompleted(index: nat)  // `steps[index].onComplete()` ran
    | TourCompleted(index: nat)  // the "complete" callback, called with (index, "end")
    | Exited                     // `tour.exit()`
    | Shown(index: nat)          // `showElement(tour, steps[index])` was called

  /** Step `i` has a `skipIf` predicate and it resolves to true in this call. */
  predicate Skipped(steps: seq<Step>, skip: nat -> bool, i: nat)
    requires i < |steps|
  {
    steps[i].hasSkipIf && skip(i)
  }

  /** The first index at or after `from` whose step is not skipped. */
  function FirstShown(steps: seq<Step>, skip: nat -> bool, from: nat): (r: Option<nat>)
    ensures r.Some? ==> from <= r.value < |steps| && !Skipped(steps, skip, r.value)
    ensures r.Some? ==> forall j :: from <= j < r.value ==> Skipped(steps, skip, j)
    ensures r.None? ==> forall j :: from <= j < |steps| ==> Skipped(steps, skip, j)
    decreases |steps| - from
  {
    if from >= |steps| then None
    else if !Skipped(steps, skip, from) then Some(from)
    else FirstShown(steps, skip, from + 1)
  }

  /** The last index below `n` that names a step which is not skipped. */
  function LastShownBelow(steps: seq<Step>, skip: nat -> bool, n: nat): (r: Option<nat>)
    ensures r.Some? ==> r.value < n && r.value < |steps| && !Skipped(steps, skip, r.value)
    ensures r.Some? ==> forall j :: r.value < j < n && j < |steps| ==> Skipped(steps, skip, j)
    ensures r.None? ==> forall j :: 0 <= j < n && j < |steps| ==> Skipped(steps, skip, j)
    decreases n
  {
    if n == 0 then None
    else if n - 1 < |steps| && !Skipped(steps, skip, n - 1) then Some(n - 1)
    else LastShownBelow(steps, skip, n - 1)
  }

  /** The first index not skipped is determined by the skipped run before it. */
  lemma FirstShownIs(steps: seq<Step>, skip: nat -> bool, from: nat, k: nat)
    requires from <= k <= |steps|
    requires forall j :: from <= j < k ==> Skipped(steps, skip, j)
    requires k < |steps| ==> !Skipped(steps, skip, k)
    ensures FirstShown(steps, skip, from) == if k < |steps| then Some(k) else None
  {
  }

  /** The last index not skipped is determined by the skipped run after it. */
  lemma LastShownBelowIs(steps: seq<Step>, skip: nat -> bool, n: nat, k: int)
    requires -1 <= k < n
    requires forall j :: k < j < n && j < |steps| ==> Skipped(steps, skip, j)
    requires k >= 0 ==> k < |steps| && !Skipped(steps, skip, k)
    ensures LastShownBelow(steps, skip, n) == if k >= 0 then Some(k) else None
  {
  }

  /** The index `incrementCurrentStep` moves to (tour.ts interface). */
  function Inc(cur: Option<nat>): nat {
    if cur.None? then 0 else cur.value + 1
  }

  /** The `onComplete` of the step current on entry, when it exists. */
  function LeaveHook(steps: seq<Step>, cur: Option<nat>): seq<Event> {
    if cur.Some? && cur.value < |steps| && steps[cur.value].hasOnComplete then [StepCompleted(cur.value)] else []
  }

  /** The `onComplete` of the step before `k`, which sets up step `k` when going back. */
  function SetupHook(steps: seq<Step>, k: nat): seq<Event> {
    if 0 < k <= |steps| && steps[k - 1].hasOnComplete then [StepCompleted(k - 1)] else []
  }

  /**
   * The forward scan of `nextStep` in steps.ts, after a skipped target: from
   * `from`, pass every step whose `skipIf` resolves to true; `|steps|` when
   * none is left.
   */
  method SkipForward(steps: seq<Step>, skip: nat -> bool, from: nat) returns (index: nat)
    requires from <= |steps|
    ensures index <= |steps|
    ensures index < |steps| ==> FirstShown(steps, skip, from) == Some(index)
    ensures index == |steps| ==> FirstShown(steps, skip, from).None?
  {
    index := from;
    while index < |steps|
      invariant from <= index <= |steps|
      invariant forall j :: from <= j < index ==> Skipped(steps, skip, j)
      decreases |steps| - index
    {
      var nextStep := steps[index];
      if nextStep.hasSkipIf {
        var shouldSkipNext := skip(index);
        if !shouldSkipNext {
          break;
        }
      } else {
        break;
      }
      index := index + 1;
    }
    FirstShownIs(steps, skip, from, index);
  }

  /**
   * The backward scan of `previousStep` in steps.ts: from `below - 1` down,
   * pass every index past the end and every step whose `skipIf` resolves to
   * true; -1 when none is left.
   */
  method SkipBackward(steps: seq<Step>, skip: nat -> bool, below: nat) returns (index: int)
    ensures -1 <= index < below
    ensures index >= 0 ==> LastShownBelow(steps, skip, below) == Some(index)
    ensures index < 0 ==> LastShownBelow(steps, skip, below).None?
  {
    index := below - 1;
    while index >= 0
      invariant -1 <= index < below
      invariant forall j :: index < j < below && j < |steps| ==> Skipped(steps, skip, j)
      decreases index + 1
    {
      if index >= |steps| {
        index := index - 1;
        continue;
      }
      var candidateStep := steps[index];
      if candidateStep.hasSkipIf {
        var shouldSkip := skip(index);
        if shouldSkip {
          index := index - 1;
          continue;
        }
      }
      break;
    }
    LastShownBelowIs(steps, skip, below, index);
  }

  class Tour {
    /** The resolved steps (`getSteps()`). */
    var steps: seq<Step>
    /** `getCurrentStep()`; `None` is undefined. */
    var current: Option<nat>
    var exited: bool
    /** The live page; the page may change between calls. */
    var page: Page
    /** The class names of every element of the page. */
    var classes: seq<set<string>>
    /** `refreshesSignal.val`; `None` is undefined. */
    var refreshes: Option<int>
    const options: Options
    ghost var log: seq<Event>
    ghost var displayLog: seq<DisplayEvent>

    /** Every element the page or a step names is an element of the page. */
    predicate Valid()
      reads this
    {
      && |page.computedPosition| == |classes|
      && (forall sel :: sel in page.query ==> page.query[sel] < |classes|)
      && (forall i :: 0 <= i < |steps| && steps[i].element.Some? ==> steps[i].element.value < |classes|)
    }

    constructor (steps: seq<Step>, options: Options, page: Page, classes: seq<set<string>>, refreshes: Option<int>)
      requires |page.computedPosition| == |classes|
      requires forall sel :: sel in page.query ==> page.query[sel] < |classes|
      requires forall i :: 0 <= i < |steps| && steps[i].element.Some? ==> steps[i].element.value < |classes|
      ensures Valid()
      ensures this.steps == steps && this.options == options && this.page == page
      ensures this.classes == classes && this.refreshes == refreshes
      ensures current == None && !exited && log == [] && displayLog == []
    {
      this.steps := steps;
      this.options := options;
      this.page := page;
      this.classes := classes;
      this.refreshes := refreshes;
      current := None;
      exited := false;
      log := [];
      displayLog := [];
    }

    /** tour.ts interface: `isEnd()`. */
    predicate IsEnd()
      reads this
    {
      current.Some? && current.value >= |steps|
    }

    /** tour.ts interface: `incrementCurrentStep()`. */
    method IncrementCurrentStep()
      modifies this`current
      ensures current == Some(Inc(old(current)))
    {
      if current.None? {
        current := Some(0);
      } else {
        current := Some(current.value + 1);
      }
    }

    /** tour.ts interface: `setCurrentStep(k)`. */
    method SetCurrentStep(k: nat)
      modifies this`current
      ensures current == Some(k)
    {
      current := Some(k);
    }

    /** The "complete" callback with reason "end", then tour.ts's `exit()`. */
    method CompleteAndExit(index: nat)
      modifies this`log, this`exited
      ensures exited && log == old(log) + [TourCompleted(index), Exited]
    {
      log := log + [TourCompleted(index)];
      exited := true;
      log := log + [Exited];
    }

    /** Runs the entry step's `onComplete` if the index moved and that step was shown. */
    method LeaveStep(currentStepIndex: Option<nat>, targetStepIndex: nat, stepWasShown: bool)
      requires stepWasShown && currentStepIndex != Some(targetStepIndex)
      modifies this`log
      ensures log == old(log) + LeaveHook(steps, currentStepIndex)
    {
      if currentStepIndex.Some? && currentStepIndex != Some(targetStepIndex) && stepWasShown {
        if currentStepIndex.value < |steps| && steps[currentStepIndex.value].hasOnComplete {
          log := log + [StepCompleted(currentStepIndex.value)];
        }
      }
    }

    /** Nothing a display touches differs from the given earlier state. */
    ghost predicate NothingShown(steps0: seq<Step>, classes0: seq<set<string>>, refreshes0: Option<int>, displayLog0: seq<DisplayEvent>)
      reads this`steps, this`classes, this`refreshes, this`displayLog
    {
      steps == steps0 && classes == classes0 && refreshes == refreshes0 && displayLog == displayLog0
    }

    /**
     * What `showElement(tour, step)` did, from the earlier state given, while the
     * current index was `idx`: the step is re-queried, the rebinding is written to
     * entry `idx` only, and unless the step is left without an element, the
     * markers move to the anchor, the refresh counter (when defined) rises by
     * one, and listeners see "change", the marker move and "afterChange" in that
     * order.
     */
    ghost predicate Displayed(steps0: seq<Step>, classes0: seq<set<string>>, refreshes0: Option<int>,
                              displayLog0: seq<DisplayEvent>, step: Step, idx: Option<nat>)
      reads this`steps, this`classes, this`refreshes, this`displayLog, this`page
    {
      var found := FreshElement(step, page.query, classes0);
      var shown := Requery(step, page.query, classes0, options.tooltipPosition);
      && steps == Sync(steps0, idx, shown, found)
      && (shown.element.None? ==> classes == classes0 && refreshes == refreshes0 && displayLog == displayLog0)
      && (shown.element.Some? ==>
            var a := shown.element.value;
            && a < |classes0| && a < |page.computedPosition|
            && classes == AfterDisplay(classes0, a, page.computedPosition[a])
            && refreshes == (if refreshes0.Some? then Some(refreshes0.value + 1) else None)
            && displayLog == displayLog0 + [Changing(a), MarkersMoved(a), AfterChanging(a)])
    }

    /** `removeShowElement`: every holder of the marker loses its `introjs-*` classes. */
    method RemoveShowElement()
      modifies this`classes
      ensures classes == Cleared(old(classes))
    {
      var i := 0;
      while i < |classes|
        invariant 0 <= i <= |classes| == |old(classes)|
        invariant forall j :: 0 <= j < i ==> classes[j] == ClearOne(old(classes)[j])
        invariant forall j :: i <= j < |classes| ==> classes[j] == old(classes)[j]
      {
        if ShowMarker in classes[i] {
          classes := classes[i := StripIntro(classes[i])];
        }
        i := i + 1;
      }
    }

    /** `setShowElement`: mark the anchor, and force relative positioning unless it is already positioned. */
    method SetShowElement(a: ElemId)
      requires a < |classes| && |page.computedPosition| == |classes|
      modifies this`classes
      ensures classes == Marked(old(classes), a, page.computedPosition[a])
    {
      classes := classes[a := classes[a] + {ShowMarker}];
      var currentElementPosition := page.computedPosition[a];
      if currentElementPosition != "absolute" && currentElementPosition != "relative"
        && currentElementPosition != "sticky" && currentElementPosition != "fixed"
      {
        classes := classes[a := classes[a] + {RelativeMarker}];
      }
    }

    /** The write-back in `showElement` (showElement.ts): the current entry of the steps array takes the fresh element and the rebound position. */
    method WriteBack(freshElement: ElemId, shown: Step)
      requires Valid() && freshElement < |classes|
      modifies this`steps
      ensures Valid()
      ensures steps == Sync(old(steps), current, shown, Some(freshElement))
    {
      if current.Some? && current.value < |steps| {
        var idx := current.value;
        steps := steps[idx := steps[idx].(element := Some(freshElement))];
        if shown.position != Floating {
          steps := steps[idx := steps[idx].(position := shown.position)];
        }
      }
    }

    /**
     * The re-query at the start of `showElement` (showElement.ts): re-query the stored selector and write the
     * rebinding to the current entry of the steps array.
     */
    method Rebind(step: Step) returns (shown: Step)
      requires Valid()
      modifies this`steps
      ensures Valid()
      ensures shown == Requery(step, page.query, classes, options.tooltipPosition)
      ensures steps == Sync(old(steps), current, shown, FreshElement(step, page.query, classes))
      ensures shown.element != step.element ==> shown.element.Some? && shown.element.value < |classes|
    {
      shown := step;
      if step.elementSelector.Some? && step.elementSelector.value != "" {
        var selector := step.elementSelector.value;
        if selector in page.query {
          var freshElement := page.query[selector];
          var isFloatingElement := FloatingClass in classes[freshElement];
          if !isFloatingElement {
            shown := shown.(element := Some(freshElement));
            if shown.position == Floating {
              shown := shown.(position := OrDefault(options.tooltipPosition, DefaultPosition));
            }
            WriteBack(freshElement, shown);
          }
        }
      }
    }

    /** `showElement(tour, step)`; `shown` is the step after rebinding. */
    method ShowElement(step: Step) returns (shown: Step)
      requires Valid()
      requires step.element.Some? ==> step.element.value < |classes|
      modifies this`steps, this`classes, this`refreshes, this`displayLog
      ensures Valid()
      ensures shown == Requery(step, page.query, old(classes), options.tooltipPosition)
      ensures Displayed(old(steps), old(classes), old(refreshes), old(displayLog), step, current)
    {
      shown := Rebind(step);
      if shown.element.None? {
        return;
      }
      var anchor := shown.element.value;
      displayLog := displayLog + [Changing(anchor)];
      RemoveShowElement();
      SetShowElement(anchor);
      displayLog := displayLog + [MarkersMoved(anchor)];
      if refreshes.Some? {
        refreshes := Some(refreshes.value + 1);
      }
      displayLog := displayLog + [AfterChanging(anchor)];
    }

    /**
     * `nextStep`. At the end already: "complete" and exit. Otherwise the index
     * moves to the first step at or after the next one that is not skipped; the
     * entry step's `onComplete` runs (and no other), then that step is shown and
     * the call returns true; when no such step exists the tour completes with
     * "end" and exits instead, and the call returns false.
     */
    method NextStep(skip: nat -> bool) returns (advanced: bool)
      requires Valid()
      modifies this`current, this`exited, this`log, this`steps, this`classes, this`refreshes, this`displayLog
      ensures Valid()
      ensures old(IsEnd()) ==>
        && !advanced && current == old(current) && exited && NothingShown(old(steps), old(classes), old(refreshes), old(displayLog))
        && log == old(log) + [TourCompleted(old(current).value), Exited]
      ensures !old(IsEnd()) && FirstShown(old(steps), skip, Inc(old(current))).None? ==>
        && !advanced && current == Some(Inc(old(current))) && exited && NothingShown(old(steps), old(classes), old(refreshes), old(displayLog))
        && log == old(log) + LeaveHook(old(steps), old(current)) + [TourCompleted(Inc(old(current))), Exited]
      ensures !old(IsEnd()) && FirstShown(old(steps), skip, Inc(old(current))).Some? ==>
        var k := FirstShown(old(steps), skip, Inc(old(current))).value;
        && advanced && current == Some(k) && exited == old(exited)
        && log == old(log) + LeaveHook(old(steps), old(current)) + [Shown(k)]
        && Displayed(old(steps), old(classes), old(refreshes), old(displayLog), old(steps)[k], Some(k))
    {
      var initialStepIndex := current;
      if IsEnd() {
        CompleteAndExit(current.value);
        return false;
      }
      var currentStepIndex := current;
      var stepWasShown := true;
      IncrementCurrentStep();
      var targetStepIndex := current.value;
      var incrementFailed := current == initialStepIndex;
      if IsEnd() || incrementFailed {
        LeaveStep(currentStepIndex, targetStepIndex, stepWasShown);
        CompleteAndExit(current.value);
        return false;
      }
      // The safety checks of `nextStep` for a missing target step cannot fire here: the index is in range and no step is null.
      var targetStep := steps[targetStepIndex];
      if targetStep.hasSkipIf {
        var shouldSkip := skip(targetStepIndex);
        if shouldSkip {
          if targetStepIndex >= |steps| - 1 {
            LeaveStep(currentStepIndex, targetStepIndex, stepWasShown);
            CompleteAndExit(targetStepIndex);
            return false;
          }
          var nextStepIndex := SkipForward(steps, skip, targetStepIndex + 1);
          if nextStepIndex >= |steps| {
            LeaveStep(currentStepIndex, targetStepIndex, stepWasShown);
            CompleteAndExit(targetStepIndex);
            return false;
          }
          SetCurrentStep(nextStepIndex);
          targetStepIndex := nextStepIndex;
          targetStep := steps[targetStepIndex];
        }
      }
      LeaveStep(currentStepIndex, targetStepIndex, stepWasShown);
      log := log + [Shown(targetStepIndex)];
      var shown := ShowElement(targetStep);
      return true;
    }

    /**
     * `previousStep`. Fails, changing nothing, without a current index above 0
     * or when every earlier step is skipped. Otherwise it moves to the last
     * earlier step that is not skipped, runs the `onComplete` of the step just
     * before that one (never the current step's), shows it and returns true.
     */
    method PreviousStep(skip: nat -> bool) returns (moved: bool)
      requires Valid()
      modifies this`current, this`log, this`steps, this`classes, this`refreshes, this`displayLog
      ensures Valid()
      ensures old(current).None? || old(current).value == 0
              || LastShownBelow(old(steps), skip, old(current).value).None? ==>
        !moved && current == old(current) && log == old(log) && NothingShown(old(steps), old(classes), old(refreshes), old(displayLog))
      ensures old(current).Some? && old(current).value > 0
              && LastShownBelow(old(steps), skip, old(current).value).Some? ==>
        var k := LastShownBelow(old(steps), skip, old(current).value).value;
        && moved && current == Some(k)
        && log == old(log) + SetupHook(old(steps), k) + [Shown(k)]
        && Displayed(old(steps), old(classes), old(refreshes), old(displayLog), old(steps)[k], Some(k))
    {
      if current.None? || current.value <= 0 {
        return false;
      }
      var currentStep := current.value;
      var targetStepIndex := SkipBackward(steps, skip, currentStep);
      if targetStepIndex < 0 {
        return false;
      }
      var setupStepIndex := targetStepIndex - 1;
      if setupStepIndex >= 0 {
        if steps[setupStepIndex].hasOnComplete {
          log := log + [StepCompleted(setupStepIndex)];
        }
      }
      SetCurrentStep(targetStepIndex);
      // The check of `previousStep` for a missing target step cannot fire: the target index is in range.
      var targetStep := steps[targetStepIndex];
      log := log + [Shown(targetStepIndex)];
      var shown := ShowElement(targetStep);
      return true;
    }
  }
}
