/**
 * Step resolution of the guided tour (src/packages/tour/steps.ts, `fetchSteps`).
 *
 * The DOM is abstracted: an element is an identifier, a CSS selector lookup is a
 * map from selector to element, and a markup element is a record of the
 * attributes `fetchSteps` reads. The numeric `data-step` attribute is taken
 * already parsed.
 */
module Steps {
  import opened Optional

  /** Identity of a DOM element. */
  type ElemId = nat

  /** The position value that marks a step without an anchor on the page. */
  const Floating := "floating"

  /** One stop of the tour (`TourStep`). The two hooks are recorded by presence only. */
  datatype Step = Step(
    step: int,
    title: string,
    intro: string,
    tooltipClass: Option<string>,
    highlightClass: Option<string>,
    element: Option<ElemId>,
    elementSelector: Option<string>,
    position: string,
    scrollTo: string,
    disableInteraction: bool,
    hasOnComplete: bool,
    hasSkipIf: bool)

  /** What a caller may put in `element` of a programmatic step. */
  datatype ElementRef = Absent | Null | Node(id: ElemId) | Selector(selector: string)

  /**
   * A programmatic step as supplied in the `steps` option; "" stands for an
   * unset string. `elementSelector` is whatever the caller put in that field
   * of its own step object.
   */
  datatype StepInput = StepInput(
    title: Option<string>,
    intro: string,
    element: ElementRef,
    elementSelector: Option<string>,
    position: string,
    scrollTo: string,
    disableInteraction: Option<bool>,
    tooltipClass: Option<string>,
    highlightClass: Option<string>,
    hasOnComplete: bool,
    hasSkipIf: bool)

  /** The tour options `fetchSteps` reads; "" stands for an unset string option. */
  datatype Options = Options(
    steps: seq<StepInput>,
    tooltipPosition: string,
    scrollTo: string,
    disableInteraction: bool,
    group: string)

  /**
   * An element carrying the intro attribute, with the attributes `fetchSteps`
   * reads (`None` when the attribute is absent). `stepAttr` is the parsed
   * `data-step`; a missing or unparsable attribute is 0.
   */
  datatype MarkupElement = MarkupElement(
    id: ElemId,
    group: Option<string>,
    display: string,
    stepAttr: int,
    intro: Option<string>,
    title: Option<string>,
    tooltipClass: Option<string>,
    highlightClass: Option<string>,
    position: Option<string>,
    scrollTo: Option<string>,
    disableInteraction: Option<string>)

  /** JavaScript's `s || d` on strings. */
  function OrDefault(s: string, d: string): string {
    if s != "" then s else d
  }

  /** JavaScript's `attr || d` on an attribute that may be absent. */
  function AttrOr(a: Option<string>, d: string): string {
    if a.Some? && a.value != "" then a.value else d
  }

  /** JavaScript's `attr || undefined`. */
  function AttrOrNone(a: Option<string>): Option<string> {
    if a.Some? && a.value != "" then a else None
  }

  // ---------------------------------------------------------------------------
  // Programmatic mode
  // ---------------------------------------------------------------------------

  /** The element a programmatic step resolves to at build time, if any. */
  function Found(e: ElementRef, query: map<string, ElemId>): Option<ElemId> {
    match e
    case Node(id) => Some(id)
    case Selector(sel) => if sel in query then Some(query[sel]) else None
    case _ => None
  }

  /**
   * How a built step relates to its programmatic input: the title defaults to "",
   * a selector is kept verbatim, a step whose element does not resolve is bound
   * to the floating placeholder with position "floating" (overriding the
   * caller's position), and otherwise position and scrollTo fall back to the
   * tour defaults when unset and disableInteraction when undefined.
   */
  predicate BuiltFrom(inp: StepInput, s: Step, opts: Options, query: map<string, ElemId>, placeholder: ElemId) {
    var found := Found(inp.element, query);
    && s.title == inp.title.GetOr("")
    && s.intro == inp.intro
    && s.tooltipClass == inp.tooltipClass
    && s.highlightClass == inp.highlightClass
    && s.hasOnComplete == inp.hasOnComplete
    && s.hasSkipIf == inp.hasSkipIf
    && s.elementSelector == (if inp.element.Selector? then Some(inp.element.selector) else inp.elementSelector)
    && (if found.Some? then s.element == found && s.position == OrDefault(inp.position, opts.tooltipPosition)
        else s.element == Some(placeholder) && s.position == Floating)
    && s.scrollTo == OrDefault(inp.scrollTo, opts.scrollTo)
    && s.disableInteraction == inp.disableInteraction.GetOr(opts.disableInteraction)
  }

  /**
   * The body of the programmatic loop for one input: the clone of the caller's
   * step, numbered `n`, with its element resolved and its defaults filled in.
   * `placeholder` is the element `appendFloatingElement` returns.
   */
  method BuildStep(input: StepInput, n: int, opts: Options, query: map<string, ElemId>, placeholder: ElemId)
    returns (step: Step)
    ensures step.step == n && step.element.Some?
    ensures BuiltFrom(input, step, opts, query, placeholder)
  {
    var element: Option<ElemId> := None;
    var selector := input.elementSelector;
    match input.element {
      case Node(id) =>
        element := Some(id);
      case Selector(sel) =>
        selector := Some(sel);
        element := if sel in query then Some(query[sel]) else None;
      case _ =>
    }
    var position := input.position;
    if element.None? {
      element := Some(placeholder);
      position := Floating;
    }
    position := OrDefault(position, opts.tooltipPosition);
    step := Step(
      n, input.title.GetOr(""), input.intro, input.tooltipClass, input.highlightClass,
      element, selector, position, OrDefault(input.scrollTo, opts.scrollTo),
      if input.disableInteraction.None? then opts.disableInteraction else input.disableInteraction.value,
      input.hasOnComplete, input.hasSkipIf);
  }

  /** `fetchSteps` with a non-empty `steps` option. */
  method FetchProgrammatic(inputs: seq<StepInput>, opts: Options, query: map<string, ElemId>, placeholder: ElemId)
    returns (steps: seq<Step>)
    ensures |steps| == |inputs|
    ensures forall i :: 0 <= i < |steps| ==> steps[i].step == i + 1
    ensures forall i :: 0 <= i < |steps| ==> BuiltFrom(inputs[i], steps[i], opts, query, placeholder)
  {
    steps := [];
    for i := 0 to |inputs|
      invariant |steps| == i
      invariant forall k :: 0 <= k < i ==> steps[k].step == k + 1
      invariant forall k :: 0 <= k < i ==> BuiltFrom(inputs[k], steps[k], opts, query, placeholder)
    {
      var step := BuildStep(inputs[i], |steps| + 1, opts, query, placeholder);
      if step.element.Some? {
        steps := steps + [step];
      }
    }
  }

  // ---------------------------------------------------------------------------
  // Markup mode: the slot table
  // ---------------------------------------------------------------------------

  /** An element survives the group filter and is not hidden. */
  predicate Eligible(e: MarkupElement, opts: Options) {
    !(opts.group != "" && e.group != Some(opts.group)) && e.display != "none"
  }

  /** The step an eligible markup element declares; `step` is its raw order. */
  function MarkupStep(e: MarkupElement, opts: Options): Step {
    Step(
      e.stepAttr, AttrOr(e.title, ""), AttrOr(e.intro, ""),
      AttrOrNone(e.tooltipClass), AttrOrNone(e.highlightClass),
      Some(e.id), None,
      AttrOr(e.position, opts.tooltipPosition), AttrOr(e.scrollTo, opts.scrollTo),
      if e.disableInteraction.Some? then e.disableInteraction.value != "" else opts.disableInteraction,
      false, false)
  }

  /** The steps declared by the eligible elements, in encounter order. */
  function Candidates(elements: seq<MarkupElement>, opts: Options): seq<Step> {
    if elements == [] then []
    else
      var init := Candidates(elements[..|elements| - 1], opts);
      var e := elements[|elements| - 1];
      if Eligible(e, opts) then init + [MarkupStep(e, opts)] else init
  }

  /** JavaScript's `a[i] = s` on a sparse array: holes are `None`, writing past the end grows it. */
  function Put(slots: seq<Option<Step>>, i: nat, s: Step): (r: seq<Option<Step>>)
    ensures |r| == if i < |slots| then |slots| else i + 1
    ensures forall j :: 0 <= j < |r| ==> r[j] == if j == i then Some(s) else if j < |slots| then slots[j] else None
  {
    if i < |slots| then slots[i := Some(s)] else slots + seq(i - |slots|, _ => None) + [Some(s)]
  }

  /** The slot table after the explicit orders are written, later writes winning. */
  function Explicit(cands: seq<Step>): seq<Option<Step>> {
    if cands == [] then []
    else
      var slots := Explicit(cands[..|cands| - 1]);
      var c := cands[|cands| - 1];
      if c.step > 0 then Put(slots, c.step - 1, c) else slots
  }

  /** The candidates without a positive order, in encounter order. */
  function Unordered(cands: seq<Step>): seq<Step> {
    if cands == [] then []
    else
      var init := Unordered(cands[..|cands| - 1]);
      var c := cands[|cands| - 1];
      if c.step > 0 then init else init + [c]
  }

  /** Slot `j` is a hole or lies past the end of the table. */
  predicate IsFree(slots: seq<Option<Step>>, j: nat) {
    j >= |slots| || slots[j].None?
  }

  /** The `n`-th (from 0) free slot at or after `i`. */
  function FreeFrom(slots: seq<Option<Step>>, n: nat, i: nat): (r: nat)
    ensures i <= r && IsFree(slots, r)
    ensures n == 0 ==> forall j :: i <= j < r ==> !IsFree(slots, j)
    decreases n, |slots| - i
  {
    if IsFree(slots, i) then
      if n == 0 then i else FreeFrom(slots, n - 1, i + 1)
    else
      FreeFrom(slots, n, i + 1)
  }

  /**
   * The fill loop: scanning upward from `i`, each free slot takes the next
   * unordered item, whose order becomes the slot index + 1.
   */
  function Fill(slots: seq<Option<Step>>, items: seq<Step>, i: nat): seq<Option<Step>>
    requires i <= |slots|
    decreases |items|, |slots| - i
  {
    if items == [] then slots
    else if i == |slots| || slots[i].None? then
      Fill(Put(slots, i, items[0].(step := i + 1)), items[1..], i + 1)
    else
      Fill(slots, items, i + 1)
  }

  /** `steps.filter((n) => n)`: the table without its holes. */
  function Compact(slots: seq<Option<Step>>): seq<Step> {
    if slots == [] then []
    else (if slots[0].Some? then [slots[0].value] else []) + Compact(slots[1..])
  }

  /** What markup mode returns: the compacted table after both passes. */
  function MarkupResult(elements: seq<MarkupElement>, opts: Options): seq<Step> {
    var cands := Candidates(elements, opts);
    Compact(Fill(Explicit(cands), Unordered(cands), 0))
  }

  /** Every filled slot `j` holds a step whose order is `off + j + 1`. */
  predicate NumberedFrom(slots: seq<Option<Step>>, off: int) {
    forall j :: 0 <= j < |slots| && slots[j].Some? ==> slots[j].value.step == off + j + 1
  }

  predicate StrictlyIncreasing(s: seq<Step>) {
    forall a, b :: 0 <= a < b < |s| ==> s[a].step < s[b].step
  }

  predicate Ascending(s: seq<Step>) {
    forall a, b :: 0 <= a < b < |s| ==> s[a].step <= s[b].step
  }

  // ---------------------------------------------------------------------------
  // Properties of the slot table
  // ---------------------------------------------------------------------------

  /** Each explicit write stores a step whose order is its slot index + 1. */
  lemma {:induction false} ExplicitNumbered(cands: seq<Step>)
    ensures NumberedFrom(Explicit(cands), 0)
  {
    if cands != [] {
      ExplicitNumbered(cands[..|cands| - 1]);
    }
  }

  /** The last candidate declaring order `k >= 1` is the one left in slot `k - 1`. */
  lemma {:induction false} ExplicitLastWins(cands: seq<Step>, i: nat)
    requires i < |cands| && cands[i].step > 0
    requires forall j :: i < j < |cands| ==> cands[j].step != cands[i].step
    ensures cands[i].step - 1 < |Explicit(cands)|
    ensures Explicit(cands)[cands[i].step - 1] == Some(cands[i])
  {
    var init := cands[..|cands| - 1];
    if i < |cands| - 1 {
      ExplicitLastWins(init, i);
    }
  }

  /** A hole in the explicit table is a slot no candidate declared. */
  lemma {:induction false} ExplicitHole(cands: seq<Step>, j: nat)
    requires IsFree(Explicit(cands), j)
    ensures forall k :: 0 <= k < |cands| ==> cands[k].step != j + 1
  {
    if cands != [] {
      var init := cands[..|cands| - 1];
      var c := cands[|cands| - 1];
      assert IsFree(Explicit(init), j) by {
        if c.step > 0 {
          assert Explicit(cands) == Put(Explicit(init), c.step - 1, c);
        }
      }
      ExplicitHole(init, j);
      forall k | 0 <= k < |cands|
        ensures cands[k].step != j + 1
      {
        if k < |cands| - 1 {
          assert cands[k] == init[k];
        }
      }
    }
  }

  /** Unordered items all have a non-positive order. */
  lemma {:induction false} UnorderedNonPositive(cands: seq<Step>)
    ensures forall k :: 0 <= k < |Unordered(cands)| ==> Unordered(cands)[k].step <= 0
  {
    if cands != [] {
      UnorderedNonPositive(cands[..|cands| - 1]);
    }
  }

  /** `FreeFrom` looks only at slots at or after `i`. */
  lemma {:induction false} FreeFromAgree(a: seq<Option<Step>>, b: seq<Option<Step>>, n: nat, i: nat)
    requires forall j :: i <= j ==> IsFree(a, j) == IsFree(b, j)
    ensures FreeFrom(a, n, i) == FreeFrom(b, n, i)
    decreases n, |a| - i
  {
    if IsFree(a, i) {
      if n > 0 {
        FreeFromAgree(a, b, n - 1, i + 1);
      }
    } else {
      FreeFromAgree(a, b, n, i + 1);
    }
  }

  /** The free slots are taken in increasing order: the next one is the first free slot after the current one. */
  lemma {:induction false} FreeFromNext(slots: seq<Option<Step>>, n: nat, i: nat)
    ensures FreeFrom(slots, n + 1, i) == FreeFrom(slots, 0, FreeFrom(slots, n, i) + 1)
    decreases n, |slots| - i
  {
    if IsFree(slots, i) {
      if n > 0 {
        FreeFromNext(slots, n - 1, i + 1);
      }
    } else {
      FreeFromNext(slots, n, i + 1);
    }
  }

  /** The fill pass never overwrites a filled slot. */
  lemma {:induction false} FillKeeps(slots: seq<Option<Step>>, items: seq<Step>, i: nat, j: nat)
    requires i <= |slots| && j < |slots| && slots[j].Some?
    ensures j < |Fill(slots, items, i)| && Fill(slots, items, i)[j] == slots[j]
    decreases |items|, |slots| - i
  {
    if items != [] {
      if i == |slots| || slots[i].None? {
        FillKeeps(Put(slots, i, items[0].(step := i + 1)), items[1..], i + 1, j);
      } else {
        FillKeeps(slots, items, i + 1, j);
      }
    }
  }

  /** Unordered item `t` lands in the `t`-th free slot at or after `i`, with order slot + 1. */
  lemma {:induction false} FillPlaces(slots: seq<Option<Step>>, items: seq<Step>, i: nat, t: nat)
    requires i <= |slots| && t < |items|
    ensures var p := FreeFrom(slots, t, i);
      p < |Fill(slots, items, i)| && Fill(slots, items, i)[p] == Some(items[t].(step := p + 1))
    decreases |items|, |slots| - i
  {
    if i == |slots| || slots[i].None? {
      var next := Put(slots, i, items[0].(step := i + 1));
      if t == 0 {
        FillKeeps(next, items[1..], i + 1, i);
      } else {
        FreeFromAgree(slots, next, t - 1, i + 1);
        FillPlaces(next, items[1..], i + 1, t - 1);
      }
    } else {
      FillPlaces(slots, items, i + 1, t);
    }
  }

  /** The fill pass keeps every filled slot numbered by its index. */
  lemma {:induction false} FillNumbered(slots: seq<Option<Step>>, items: seq<Step>, i: nat)
    requires i <= |slots| && NumberedFrom(slots, 0)
    ensures NumberedFrom(Fill(slots, items, i), 0)
    decreases |items|, |slots| - i
  {
    if items != [] {
      if i == |slots| || slots[i].None? {
        FillNumbered(Put(slots, i, items[0].(step := i + 1)), items[1..], i + 1);
      } else {
        FillNumbered(slots, items, i + 1);
      }
    }
  }

  lemma {:induction false} CompactAppend(a: seq<Option<Step>>, b: seq<Option<Step>>)
    ensures Compact(a + b) == Compact(a) + Compact(b)
  {
    if a != [] {
      assert (a + b)[1..] == a[1..] + b;
      CompactAppend(a[1..], b);
    } else {
      assert a + b == b;
    }
  }

  lemma {:induction false} CompactHoles(n: nat)
    ensures Compact(seq(n, _ => None)) == []
  {
    if n > 0 {
      var holes: seq<Option<Step>> := seq(n, _ => None);
      assert holes[1..] == seq(n - 1, _ => None);
      CompactHoles(n - 1);
    }
  }

  /** Writing into a free slot adds exactly one step to the compacted table. */
  lemma CompactPut(slots: seq<Option<Step>>, i: nat, s: Step)
    requires IsFree(slots, i)
    ensures |Compact(Put(slots, i, s))| == |Compact(slots)| + 1
  {
    if i < |slots| {
      assert slots == slots[..i] + [None] + slots[i + 1..];
      assert Put(slots, i, s) == slots[..i] + [Some(s)] + slots[i + 1..];
      CompactAppend(slots[..i] + [None], slots[i + 1..]);
      CompactAppend(slots[..i], [None]);
      CompactAppend(slots[..i] + [Some(s)], slots[i + 1..]);
      CompactAppend(slots[..i], [Some(s)]);
    } else {
      var holes: seq<Option<Step>> := seq(i - |slots|, _ => None);
      assert Put(slots, i, s) == slots + holes + [Some(s)];
      CompactAppend(slots + holes, [Some(s)]);
      CompactAppend(slots, holes);
      CompactHoles(i - |slots|);
    }
  }

  /** No unordered item is lost: the fill pass adds exactly one step per item. */
  lemma {:induction false} FillCount(slots: seq<Option<Step>>, items: seq<Step>, i: nat)
    requires i <= |slots|
    ensures |Compact(Fill(slots, items, i))| == |Compact(slots)| + |items|
    decreases |items|, |slots| - i
  {
    if items != [] {
      if i == |slots| || slots[i].None? {
        CompactPut(slots, i, items[0].(step := i + 1));
        FillCount(Put(slots, i, items[0].(step := i + 1)), items[1..], i + 1);
      } else {
        FillCount(slots, items, i + 1);
      }
    }
  }

  /** A numbered table compacts to a strictly increasing sequence of orders above `off`. */
  lemma {:induction false} CompactIncreasing(slots: seq<Option<Step>>, off: int)
    requires NumberedFrom(slots, off)
    ensures StrictlyIncreasing(Compact(slots))
    ensures forall k :: 0 <= k < |Compact(slots)| ==> Compact(slots)[k].step > off
  {
    if slots != [] {
      assert NumberedFrom(slots[1..], off + 1) by {
        forall j | 0 <= j < |slots[1..]| && slots[1..][j].Some?
          ensures slots[1..][j].value.step == off + 1 + j + 1
        {
          assert slots[1..][j] == slots[j + 1];
        }
      }
      CompactIncreasing(slots[1..], off + 1);
    }
  }

  /** Every filled slot survives compaction. */
  lemma {:induction false} CompactContains(slots: seq<Option<Step>>, j: nat)
    requires j < |slots| && slots[j].Some?
    ensures slots[j].value in Compact(slots)
  {
    if j > 0 {
      CompactContains(slots[1..], j - 1);
    }
  }

  lemma TailIncreasing(s: seq<Step>)
    requires s != [] && StrictlyIncreasing(s)
    ensures StrictlyIncreasing(s[1..])
  {
  }

  lemma TailAscending(t: seq<Step>)
    requires t != [] && Ascending(t)
    ensures Ascending(t[1..])
  {
  }

  /** Two rearrangements, one strictly increasing and one ascending, start with the same step. */
  lemma SameHead(s: seq<Step>, t: seq<Step>)
    requires s != [] && t != [] && StrictlyIncreasing(s) && Ascending(t) && multiset(t) == multiset(s)
    ensures t[0] == s[0]
  {
    assert t[0] in multiset(s);
    var m :| 0 <= m < |s| && s[m] == t[0];
    assert s[0] in multiset(t);
    var n :| 0 <= n < |t| && t[n] == s[0];
    assert t[0].step <= t[n].step;
  }

  /**
   * The final `sort` by order changes nothing: the only ascending rearrangement
   * of a strictly increasing sequence is the sequence itself.
   */
  lemma {:induction false} SortKeepsIncreasing(s: seq<Step>, t: seq<Step>)
    requires StrictlyIncreasing(s) && Ascending(t) && multiset(t) == multiset(s)
    ensures t == s
  {
    assert |t| == |multiset(t)| == |multiset(s)| == |s|;
    if s != [] {
      SameHead(s, t);
      assert s == [s[0]] + s[1..];
      assert t == [t[0]] + t[1..];
      assert multiset(t[1..]) == multiset(s[1..]) by {
        assert multiset(t) == multiset([t[0]] + t[1..]) == multiset{t[0]} + multiset(t[1..]);
        assert multiset(s) == multiset([s[0]] + s[1..]) == multiset{s[0]} + multiset(s[1..]);
        assert multiset(t[1..]) == multiset(t) - multiset{t[0]};
        assert multiset(s[1..]) == multiset(s) - multiset{s[0]};
      }
      TailIncreasing(s);
      TailAscending(t);
      SortKeepsIncreasing(s[1..], t[1..]);
    }
  }

  // ---------------------------------------------------------------------------
  // Markup mode: the algorithm and what its result is
  // ---------------------------------------------------------------------------

  /** The result of markup mode is strictly increasing by order, every order >= 1, and loses no unordered item. */
  lemma MarkupOrdered(elements: seq<MarkupElement>, opts: Options)
    ensures StrictlyIncreasing(MarkupResult(elements, opts))
    ensures forall k :: 0 <= k < |MarkupResult(elements, opts)| ==> MarkupResult(elements, opts)[k].step >= 1
    ensures var cands := Candidates(elements, opts);
      |MarkupResult(elements, opts)| == |Compact(Explicit(cands))| + |Unordered(cands)|
  {
    var cands := Candidates(elements, opts);
    ExplicitNumbered(cands);
    FillNumbered(Explicit(cands), Unordered(cands), 0);
    CompactIncreasing(Fill(Explicit(cands), Unordered(cands), 0), 0);
    FillCount(Explicit(cands), Unordered(cands), 0);
  }

  /** The last eligible element declaring order `k >= 1` appears in the result with order `k`. */
  lemma MarkupExplicitKept(elements: seq<MarkupElement>, opts: Options, i: nat)
    requires var cands := Candidates(elements, opts);
      i < |cands| && cands[i].step > 0 && forall j :: i < j < |cands| ==> cands[j].step != cands[i].step
    ensures Candidates(elements, opts)[i] in MarkupResult(elements, opts)
  {
    var cands := Candidates(elements, opts);
    var k := cands[i].step - 1;
    ExplicitLastWins(cands, i);
    FillKeeps(Explicit(cands), Unordered(cands), 0, k);
    CompactContains(Fill(Explicit(cands), Unordered(cands), 0), k);
  }

  /**
   * Unordered item `t` takes the `t`-th free slot of the explicit table, counting
   * from slot 0 in encounter order; it appears in the result with order slot + 1,
   * and no candidate declared that order explicitly.
   */
  lemma MarkupUnorderedPlaced(elements: seq<MarkupElement>, opts: Options, t: nat)
    requires t < |Unordered(Candidates(elements, opts))|
    ensures var cands := Candidates(elements, opts);
      var p := FreeFrom(Explicit(cands), t, 0);
      && Unordered(cands)[t].(step := p + 1) in MarkupResult(elements, opts)
      && forall k :: 0 <= k < |cands| ==> cands[k].step != p + 1
  {
    var cands := Candidates(elements, opts);
    var p := FreeFrom(Explicit(cands), t, 0);
    FillPlaces(Explicit(cands), Unordered(cands), 0, t);
    CompactContains(Fill(Explicit(cands), Unordered(cands), 0), p);
    ExplicitHole(cands, p);
  }

  /** One more candidate: an explicit one is written to its slot, any other is queued. */
  lemma SnocCandidate(cands: seq<Step>, c: Step)
    ensures Explicit(cands + [c]) == if c.step > 0 then Put(Explicit(cands), c.step - 1, c) else Explicit(cands)
    ensures Unordered(cands + [c]) == if c.step > 0 then Unordered(cands) else Unordered(cands) + [c]
  {
  }

  /** A one-slot table compacts to its step, or to nothing when it is a hole. */
  lemma CompactOne(x: Option<Step>)
    ensures Compact([x]) == if x.Some? then [x.value] else []
  {
  }

  /** Explicit orders 1 and 3 with nothing unordered: the hole at 2 is dropped, not renumbered. */
  lemma {:induction false} OrdersKeepGaps(a: Step, b: Step)
    requires a.step == 1 && b.step == 3
    ensures Compact(Fill(Explicit([a, b]), Unordered([a, b]), 0)) == [a, b]
  {
    var hole: Option<Step> := None;
    SnocCandidate([], a);
    SnocCandidate([a], b);
    assert [] + [a] == [a] && [a] + [b] == [a, b];
    var one := Put([], 0, a);
    assert one == [Some(a)];
    var slots := Put(one, 2, b);
    assert slots == [Some(a), hole, Some(b)];
    assert Unordered([a, b]) == [];
    CompactAppend([Some(a), hole], [Some(b)]);
    CompactAppend([Some(a)], [hole]);
    CompactOne(Some(a));
    CompactOne(hole);
    CompactOne(Some(b));
    assert [Some(a), hole] + [Some(b)] == slots;
    assert [Some(a)] + [hole] == [Some(a), hole];
  }

  /** The tables after the first pass over explicit orders 3, 1 and two unordered items. */
  lemma TablesThreeOne(a: Step, b: Step, u: Step, v: Step)
    requires a.step == 3 && b.step == 1 && u.step == 0 && v.step == 0
    ensures Explicit([a, b, u, v]) == [Some(b), None, Some(a)]
    ensures Unordered([a, b, u, v]) == [u, v]
  {
    var hole: Option<Step> := None;
    SnocCandidate([], a);
    SnocCandidate([a], b);
    SnocCandidate([a, b], u);
    SnocCandidate([a, b, u], v);
    assert [] + [a] == [a] && [a] + [b] == [a, b] && [a, b] + [u] == [a, b, u] && [a, b, u] + [v] == [a, b, u, v];
    var one := Put([], 2, a);
    assert one == [hole, hole, Some(a)];
    assert Put(one, 0, b) == [Some(b), hole, Some(a)];
  }

  /** The fill pass over the table with holes at 1 and past the end. */
  lemma FillThreeOne(a: Step, b: Step, u: Step, v: Step)
    ensures Fill([Some(b), None, Some(a)], [u, v], 0) == [Some(b), Some(u.(step := 2)), Some(a), Some(v.(step := 4))]
  {
    var slots: seq<Option<Step>> := [Some(b), None, Some(a)];
    var u2, v4 := u.(step := 2), v.(step := 4);
    var three := Put(slots, 1, u2);
    assert three == [Some(b), Some(u2), Some(a)];
    var filled := Put(three, 3, v4);
    assert filled == [Some(b), Some(u2), Some(a), Some(v4)];
    assert [u, v][1..] == [v] && [v][1..] == [];
    assert Fill(slots, [u, v], 0) == Fill(slots, [u, v], 1) == Fill(three, [v], 2);
    assert Fill(three, [v], 2) == Fill(three, [v], 3) == Fill(filled, [], 4) == filled;
  }

  /** A table without holes compacts to its steps. */
  lemma {:induction false} CompactFull(slots: seq<Option<Step>>)
    requires forall j :: 0 <= j < |slots| ==> slots[j].Some?
    ensures |Compact(slots)| == |slots|
    ensures forall j :: 0 <= j < |slots| ==> Compact(slots)[j] == slots[j].value
  {
    if slots != [] {
      CompactFull(slots[1..]);
    }
  }

  /**
   * Explicit orders 3 then 1 and two unordered items: the unordered items take
   * the holes 2 and 4 in encounter order, and the result runs 1, 2, 3, 4.
   */
  lemma {:induction false} UnorderedFillHoles(a: Step, b: Step, u: Step, v: Step)
    requires a.step == 3 && b.step == 1 && u.step == 0 && v.step == 0
    ensures Compact(Fill(Explicit([a, b, u, v]), Unordered([a, b, u, v]), 0))
      == [b, u.(step := 2), a, v.(step := 4)]
  {
    TablesThreeOne(a, b, u, v);
    FillThreeOne(a, b, u, v);
    CompactFull([Some(b), Some(u.(step := 2)), Some(a), Some(v.(step := 4))]);
  }

  /** `fetchSteps` without a `steps` option, over the elements carrying the intro attribute. */
  method FetchMarkup(elements: seq<MarkupElement>, opts: Options) returns (steps: seq<Step>)
    ensures steps == MarkupResult(elements, opts)
    ensures StrictlyIncreasing(steps)
    ensures forall k :: 0 <= k < |steps| ==> steps[k].step >= 1
  {
    MarkupOrdered(elements, opts);
    if |elements| < 1 {
      return [];
    }
    var slots: seq<Option<Step>> := [];
    var itemsWithoutStep: seq<Step> := [];
    for i := 0 to |elements|
      invariant slots == Explicit(Candidates(elements[..i], opts))
      invariant itemsWithoutStep == Unordered(Candidates(elements[..i], opts))
    {
      assert elements[..i + 1][..i] == elements[..i];
      var element := elements[i];
      if opts.group != "" && element.group != Some(opts.group) {
        continue;
      }
      if element.display == "none" {
        continue;
      }
      var newIntroStep := MarkupStep(element, opts);
      ghost var cands := Candidates(elements[..i], opts);
      assert Candidates(elements[..i + 1], opts) == cands + [newIntroStep];
      assert (cands + [newIntroStep])[..|cands|] == cands;
      if newIntroStep.step > 0 {
        slots := Put(slots, newIntroStep.step - 1, newIntroStep);
      } else {
        itemsWithoutStep := itemsWithoutStep + [newIntroStep];
      }
    }
    assert elements[..|elements|] == elements;
    ghost var filled := Fill(slots, itemsWithoutStep, 0);
    var i := 0;
    while |itemsWithoutStep| > 0
      invariant i <= |slots|
      invariant Fill(slots, itemsWithoutStep, i) == filled
      decreases |itemsWithoutStep|, |slots| - i
    {
      if i == |slots| || slots[i].None? {
        var newStep := itemsWithoutStep[0];
        itemsWithoutStep := itemsWithoutStep[1..];
        newStep := newStep.(step := i + 1);
        slots := Put(slots, i, newStep);
      }
      i := i + 1;
    }
    steps := Compact(slots);
  }

  /** `fetchSteps`: programmatic mode when the `steps` option is non-empty, markup mode otherwise. */
  method FetchSteps(opts: Options, elements: seq<MarkupElement>, query: map<string, ElemId>, placeholder: ElemId)
    returns (steps: seq<Step>)
    ensures StrictlyIncreasing(steps)
    ensures forall k :: 0 <= k < |steps| ==> steps[k].step >= 1 && steps[k].element.Some?
    ensures |opts.steps| > 0 ==> |steps| == |opts.steps|
    ensures |opts.steps| > 0 ==> forall i :: 0 <= i < |steps| ==>
      steps[i].step == i + 1 && BuiltFrom(opts.steps[i], steps[i], opts, query, placeholder)
    ensures |opts.steps| == 0 ==> steps == MarkupResult(elements, opts)
  {
    if |opts.steps| > 0 {
      steps := FetchProgrammatic(opts.steps, opts, query, placeholder);
    } else {
      steps := FetchMarkup(elements, opts);
      MarkupAnchored(elements, opts);
    }
  }

  /** The elements that survive the group and visibility filters, by identity. */
  function DeclaredIds(elements: seq<MarkupElement>, opts: Options): (r: set<ElemId>)
    ensures forall x :: x in r <==> exists e :: e in elements && Eligible(e, opts) && e.id == x
  {
    set e | e in elements && Eligible(e, opts) :: e.id
  }

  /**
   * Every markup step is anchored on an element that survived the group and
   * visibility filters: a hidden element, or one outside the requested group,
   * yields no step.
   */
  lemma MarkupAnchored(elements: seq<MarkupElement>, opts: Options)
    ensures forall k :: 0 <= k < |MarkupResult(elements, opts)| ==>
      exists e :: e in elements && Eligible(e, opts) && MarkupResult(elements, opts)[k].element == Some(e.id)
  {
    var cands := Candidates(elements, opts);
    var ids := DeclaredIds(elements, opts);
    CandidatesAnchored(elements, opts, ids);
    UnorderedAnchored(cands, ids);
    ExplicitAnchored(cands, ids);
    FillAnchored(Explicit(cands), Unordered(cands), 0, ids);
    CompactAnchored(Fill(Explicit(cands), Unordered(cands), 0), ids);
  }

  /** Every step is anchored on one of the elements `ids`. */
  predicate AllAnchored(s: seq<Step>, ids: set<ElemId>) {
    forall k :: 0 <= k < |s| ==> s[k].element.Some? && s[k].element.value in ids
  }

  /** Every filled slot is anchored on one of the elements `ids`. */
  predicate SlotsAnchored(slots: seq<Option<Step>>, ids: set<ElemId>) {
    forall j :: 0 <= j < |slots| && slots[j].Some? ==> slots[j].value.element.Some? && slots[j].value.element.value in ids
  }

  lemma {:induction false} CandidatesAnchored(elements: seq<MarkupElement>, opts: Options, ids: set<ElemId>)
    requires forall e :: e in elements && Eligible(e, opts) ==> e.id in ids
    ensures AllAnchored(Candidates(elements, opts), ids)
  {
    if elements != [] {
      var init := elements[..|elements| - 1];
      assert forall e :: e in init ==> e in elements;
      CandidatesAnchored(init, opts, ids);
    }
  }

  lemma {:induction false} UnorderedAnchored(cands: seq<Step>, ids: set<ElemId>)
    requires AllAnchored(cands, ids)
    ensures AllAnchored(Unordered(cands), ids)
  {
    if cands != [] {
      UnorderedAnchored(cands[..|cands| - 1], ids);
    }
  }

  lemma {:induction false} ExplicitAnchored(cands: seq<Step>, ids: set<ElemId>)
    requires AllAnchored(cands, ids)
    ensures SlotsAnchored(Explicit(cands), ids)
  {
    if cands != [] {
      ExplicitAnchored(cands[..|cands| - 1], ids);
    }
  }

  lemma {:induction false} FillAnchored(slots: seq<Option<Step>>, items: seq<Step>, i: nat, ids: set<ElemId>)
    requires i <= |slots| && SlotsAnchored(slots, ids) && AllAnchored(items, ids)
    ensures SlotsAnchored(Fill(slots, items, i), ids)
    decreases |items|, |slots| - i
  {
    if items != [] {
      if i == |slots| || slots[i].None? {
        FillAnchored(Put(slots, i, items[0].(step := i + 1)), items[1..], i + 1, ids);
      } else {
        FillAnchored(slots, items, i + 1, ids);
      }
    }
  }

  lemma {:induction false} CompactAnchored(slots: seq<Option<Step>>, ids: set<ElemId>)
    requires SlotsAnchored(slots, ids)
    ensures AllAnchored(Compact(slots), ids)
  {
    if slots != [] {
      CompactAnchored(slots[1..], ids);
    }
  }
}
