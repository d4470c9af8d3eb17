/**
 * Element re-synchronisation (src/packages/tour/showElement.ts) as functions on
 * an abstract page: a selector lookup, the class names of every element, and the
 * computed CSS `position` of every element. The methods that perform these
 * updates in place belong to `Navigation.Tour`.
 */
module Display {
  import opened Optional
  import opened Steps

  /** Marker of the element the tour currently highlights (`showElementClassName`). */
  const ShowMarker := "introjs-showElement"
  /** Marker that forces relative positioning on the highlighted element. */
  const RelativeMarker := "introjs-relativePosition"
  /** Class of the placeholder element floating steps are bound to. */
  const FloatingClass := "introjsFloatingElement"
  /** Position used when a rebound step has no `tooltipPosition` option. */
  const DefaultPosition := "bottom"

  /**
   * The live page as the synchroniser sees it: what each selector finds, and the
   * computed CSS `position` of each element (indexed by element).
   */
  datatype Page = Page(query: map<string, ElemId>, computedPosition: seq<string>)

  /** What listeners observe during one display, in order. */
  datatype DisplayEvent =
    | Changing(anchor: ElemId)       // the "change" callback
    | MarkersMoved(anchor: ElemId)   // old markers removed, new ones applied
    | AfterChanging(anchor: ElemId)  // the "afterChange" callback

  predicate IsLetter(ch: char) {
    'a' <= ch <= 'z' || 'A' <= ch <= 'Z'
  }

  /** A class name matched as a whole by the pattern `introjs-[a-zA-Z]+`. */
  predicate IsIntroClass(c: string) {
    |c| > 8 && c[..8] == "introjs-" && forall k :: 8 <= k < |c| ==> IsLetter(c[k])
  }

  lemma MarkersAreIntroClasses()
    ensures IsIntroClass(ShowMarker) && IsIntroClass(RelativeMarker)
    ensures ShowMarker != RelativeMarker
  {
  }

  /** The classes left after every `introjs-*` class is removed. */
  function StripIntro(cs: set<string>): (r: set<string>)
    ensures r <= cs
    ensures forall c :: c in cs ==> (c in r <==> !IsIntroClass(c))
  {
    set c | c in cs && !IsIntroClass(c)
  }

  /** A computed position the highlight can already be placed against. */
  predicate IsPositioned(pos: string) {
    pos == "absolute" || pos == "relative" || pos == "sticky" || pos == "fixed"
  }

  // ---------------------------------------------------------------------------
  // Rebinding the step (`showElement`, before the callbacks)
  // ---------------------------------------------------------------------------

  /**
   * The element a step's stored selector finds now, unless it is the floating
   * placeholder; `None` when there is no selector or nothing (usable) is found.
   */
  function FreshElement(s: Step, query: map<string, ElemId>, classes: seq<set<string>>): Option<ElemId> {
    if s.elementSelector.Some? && s.elementSelector.value != "" && s.elementSelector.value in query then
      var e := query[s.elementSelector.value];
      if e < |classes| && FloatingClass in classes[e] then None else Some(e)
    else None
  }

  /** The step after re-querying: rebound to the fresh element and un-floated. */
  function Requery(s: Step, query: map<string, ElemId>, classes: seq<set<string>>, tooltipPosition: string): (r: Step)
    ensures r == s.(element := r.element, position := r.position)
    ensures FreshElement(s, query, classes).None? ==> r == s
    ensures FreshElement(s, query, classes).Some? ==> r.element == FreshElement(s, query, classes)
    ensures r.position != s.position ==> s.position == Floating && r.position == OrDefault(tooltipPosition, DefaultPosition)
  {
    match FreshElement(s, query, classes)
    case None => s
    case Some(e) =>
      s.(element := Some(e),
         position := if s.position == Floating then OrDefault(tooltipPosition, DefaultPosition) else s.position)
  }

  /**
   * The write-back into the steps array: only entry `idx` (the current step)
   * changes, its element always and its position unless the rebound position is
   * "floating".
   */
  function Sync(steps: seq<Step>, idx: Option<nat>, r: Step, found: Option<ElemId>): (out: seq<Step>)
    ensures |out| == |steps|
    ensures forall j :: 0 <= j < |steps| && (idx.None? || j != idx.value) ==> out[j] == steps[j]
    ensures found.Some? && idx.Some? && idx.value < |steps| ==>
      out[idx.value] == steps[idx.value].(element := found,
        position := if r.position != Floating then r.position else steps[idx.value].position)
    ensures found.None? ==> out == steps
  {
    if found.None? || idx.None? || idx.value >= |steps| then steps
    else
      var entry := steps[idx.value];
      var e := entry.(element := found);
      steps[idx.value := if r.position != Floating then e.(position := r.position) else e]
  }

  // ---------------------------------------------------------------------------
  // Marker classes (`setShowElement`, `removeShowElement`)
  // ---------------------------------------------------------------------------

  /** One element after `removeShowElement`: holders of the marker lose every `introjs-*` class. */
  function ClearOne(cs: set<string>): set<string> {
    if ShowMarker in cs then StripIntro(cs) else cs
  }

  /** The class table after `removeShowElement`. */
  function Cleared(classes: seq<set<string>>): (r: seq<set<string>>)
    ensures |r| == |classes|
  {
    seq(|classes|, i requires 0 <= i < |classes| => ClearOne(classes[i]))
  }

  /** The class table after `setShowElement(a)` with `a`'s computed position `pos`. */
  function Marked(classes: seq<set<string>>, a: ElemId, pos: string): (r: seq<set<string>>)
    requires a < |classes|
    ensures |r| == |classes|
  {
    var marked := classes[a := classes[a] + {ShowMarker}];
    if IsPositioned(pos) then marked else marked[a := marked[a] + {RelativeMarker}]
  }

  /** The class table after a display anchored on `a`. */
  function AfterDisplay(classes: seq<set<string>>, a: ElemId, pos: string): (r: seq<set<string>>)
    requires a < |classes|
    ensures |r| == |classes|
  {
    Marked(Cleared(classes), a, pos)
  }

  /** After `removeShowElement` no element holds the marker, former holders carry no `introjs-*` class, and the rest are untouched. */
  lemma ClearedRemovesMarkers(classes: seq<set<string>>)
    ensures forall i :: 0 <= i < |classes| ==> ShowMarker !in Cleared(classes)[i]
    ensures forall i, c :: 0 <= i < |classes| && ShowMarker in classes[i] && c in Cleared(classes)[i] ==> !IsIntroClass(c)
    ensures forall i :: 0 <= i < |classes| && ShowMarker !in classes[i] ==> Cleared(classes)[i] == classes[i]
  {
  }

  /**
   * After a display the anchor is the only holder of the marker; every former
   * holder has lost its `introjs-*` classes; all other elements are untouched;
   * and the anchor gains the relative-position marker exactly when its computed
   * position is not one of absolute, relative, sticky, fixed.
   */
  lemma DisplayMarksOnlyAnchor(classes: seq<set<string>>, a: ElemId, pos: string)
    requires a < |classes|
    ensures var r := AfterDisplay(classes, a, pos);
      && (forall i :: 0 <= i < |r| ==> (ShowMarker in r[i] <==> i == a))
      && (forall i, c :: 0 <= i < |r| && i != a && ShowMarker in classes[i] && c in r[i] ==> !IsIntroClass(c))
      && (forall i :: 0 <= i < |r| && i != a && ShowMarker !in classes[i] ==> r[i] == classes[i])
      && (!IsPositioned(pos) ==> RelativeMarker in r[a])
      && (ShowMarker in classes[a] || RelativeMarker !in classes[a] ==> (RelativeMarker in r[a] <==> !IsPositioned(pos)))
  {
  }

  /** The anchor carries no `introjs-*` class beyond the markers a display gives it. */
  predicate NoStrayIntroClass(cs: set<string>, pos: string) {
    forall c :: c in cs && IsIntroClass(c) ==> c == ShowMarker || (c == RelativeMarker && !IsPositioned(pos))
  }

  /**
   * Displaying the same anchor twice leaves the classes as one display left them,
   * provided the anchor held the marker already or carried no stray `introjs-*`
   * class (a stray one survives the first display and is stripped by the second).
   */
  lemma DisplayIdempotent(classes: seq<set<string>>, a: ElemId, pos: string)
    requires a < |classes|
    requires ShowMarker in classes[a] || NoStrayIntroClass(classes[a], pos)
    ensures AfterDisplay(AfterDisplay(classes, a, pos), a, pos) == AfterDisplay(classes, a, pos)
  {
    var once := AfterDisplay(classes, a, pos);
    var twice := AfterDisplay(once, a, pos);
    MarkersAreIntroClasses();
    DisplayMarksOnlyAnchor(classes, a, pos);
    DisplayMarksOnlyAnchor(once, a, pos);
    forall i | 0 <= i < |classes|
      ensures twice[i] == once[i]
    {
      if i == a {
        var cleared := Cleared(classes)[a];
        assert once[a] == cleared + {ShowMarker} + (if IsPositioned(pos) then {} else {RelativeMarker});
        assert twice[a] == StripIntro(once[a]) + {ShowMarker} + (if IsPositioned(pos) then {} else {RelativeMarker});
        assert NoStrayIntroClass(cleared, pos) by {
          if ShowMarker in classes[a] {
            assert cleared == StripIntro(classes[a]);
          } else {
            assert cleared == classes[a];
          }
        }
      }
    }
  }

  /** Re-querying twice against an unchanged page binds the same element and position as once. */
  lemma RequeryIdempotent(s: Step, query: map<string, ElemId>, classes: seq<set<string>>, tooltipPosition: string)
    ensures var r := Requery(s, query, classes, tooltipPosition);
      Requery(r, query, classes, tooltipPosition) == r
  {
  }

  /**
   * A step built as floating because its selector found nothing is anchored on
   * the selector's element once it appears, and leaves "floating" unless the
   * `tooltipPosition` option itself is "floating".
   */
  lemma RequeryRebinds(s: Step, query: map<string, ElemId>, classes: seq<set<string>>, tooltipPosition: string, e: ElemId)
    requires s.position == Floating && s.elementSelector.Some? && s.elementSelector.value != ""
    requires s.elementSelector.value in query && query[s.elementSelector.value] == e
    requires e < |classes| && FloatingClass !in classes[e]
    ensures var r := Requery(s, query, classes, tooltipPosition);
      && r.element == Some(e)
      && r.position == OrDefault(tooltipPosition, DefaultPosition)
      && (tooltipPosition != Floating ==> r.position != Floating)
  {
  }

  /** The placeholder class is not one a display adds or strips. */
  lemma FloatingClassUntouched()
    ensures !IsIntroClass(FloatingClass) && FloatingClass != ShowMarker && FloatingClass != RelativeMarker
  {
    assert FloatingClass[..8] == "introjsF";
  }

  /** A display leaves the placeholder class where it was, so a re-query after it finds what it found before. */
  lemma FreshElementAfterDisplay(s: Step, query: map<string, ElemId>, classes: seq<set<string>>, a: ElemId, pos: string)
    requires a < |classes|
    ensures FreshElement(s, query, AfterDisplay(classes, a, pos)) == FreshElement(s, query, classes)
  {
    FloatingClassUntouched();
    var after := AfterDisplay(classes, a, pos);
    forall e | 0 <= e < |classes|
      ensures FloatingClass in after[e] <==> FloatingClass in classes[e]
    {
      assert Cleared(classes)[e] == ClearOne(classes[e]);
    }
  }

  /** The class table after showing the re-queried step `shown`, positions indexed by element. */
  function ShownClasses(classes: seq<set<string>>, shown: Step, positions: seq<string>): (r: seq<set<string>>)
    requires shown.element.Some? ==> shown.element.value < |classes| && shown.element.value < |positions|
    ensures |r| == |classes|
  {
    if shown.element.Some? then AfterDisplay(classes, shown.element.value, positions[shown.element.value]) else classes
  }

  /**
   * Showing the same step twice against an unchanged page ends where showing it
   * once did: the same rebound step, the same steps array and the same classes.
   * The second display receives the step object as the first left it.
   */
  lemma {:induction false} DisplayTwice(steps: seq<Step>, idx: Option<nat>, s: Step, query: map<string, ElemId>,
                                        classes: seq<set<string>>, tooltipPosition: string, positions: seq<string>)
    requires var r := Requery(s, query, classes, tooltipPosition);
      r.element.Some? ==>
        && r.element.value < |classes| && r.element.value < |positions|
        && (ShowMarker in classes[r.element.value] || NoStrayIntroClass(classes[r.element.value], positions[r.element.value]))
    ensures
      var r1 := Requery(s, query, classes, tooltipPosition);
      var steps1 := Sync(steps, idx, r1, FreshElement(s, query, classes));
      var classes1 := ShownClasses(classes, r1, positions);
      var r2 := Requery(r1, query, classes1, tooltipPosition);
      && r2 == r1
      && Sync(steps1, idx, r2, FreshElement(r1, query, classes1)) == steps1
      && ShownClasses(classes1, r2, positions) == classes1
  {
    var r1 := Requery(s, query, classes, tooltipPosition);
    var classes1 := ShownClasses(classes, r1, positions);
    if r1.element.Some? {
      var a := r1.element.value;
      FreshElementAfterDisplay(r1, query, classes, a, positions[a]);
      DisplayIdempotent(classes, a, positions[a]);
    }
    assert FreshElement(r1, query, classes) == FreshElement(s, query, classes);
    RequeryIdempotent(s, query, classes, tooltipPosition);
  }
}
