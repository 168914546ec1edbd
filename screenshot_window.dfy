// The screenshot editor window: the selection rectangle drawn while in
// selection mode, the switch to editing mode, and the annotation canvas
// with its undo and redo stacks. Coordinates are integers; drawn
// elements are identities handed out by a counter, standing for the WPF
// objects the window creates. Rendering, capture, saving and the
// clipboard are not modelled.
module ScreenshotWindow {
  import opened Wrappers
  import opened Text

  datatype DrawingMode = NoMode | Rectangle | Ellipse | Line | Arrow | Brush | TextMode | Mosaic

  datatype Point = Point(x: int, y: int)

  datatype Rect = Rect(x: int, y: int, width: int, height: int)

  /** A UI element on the drawing canvas. */
  type Element = nat

  /** The smallest selection side that can be captured. */
  const MinSelection: int := 10
  const MinThickness: int := 1
  const MaxThickness: int := 20

  function Min(a: int, b: int): int { if a <= b then a else b }
  function Abs(a: int): nat { if a < 0 then -a else a }

  /** UpdateSelectionRect: the rectangle spanned by the two corner points
      of the drag, whichever way it went. */
  function NormalizedRect(a: Point, b: Point): (r: Rect)
    ensures r.width >= 0 && r.height >= 0
    ensures (a.x == r.x && b.x == r.x + r.width) || (b.x == r.x && a.x == r.x + r.width)
    ensures (a.y == r.y && b.y == r.y + r.height) || (b.y == r.y && a.y == r.y + r.height)
  {
    Rect(Min(a.x, b.x), Min(a.y, b.y), Abs(b.x - a.x), Abs(b.y - a.y))
  }

  /** The rectangle does not depend on the direction of the drag. */
  lemma NormalizedRectSymmetric(a: Point, b: Point)
    ensures NormalizedRect(a, b) == NormalizedRect(b, a)
  {
  }

  /** A selection large enough to capture. None is Rect.Empty, whose
      width and height are negative infinity. */
  predicate Capturable(sel: Option<Rect>)
  {
    sel.Some? && sel.value.width >= MinSelection && sel.value.height >= MinSelection
  }

  /** Ctrl+wheel: one step up or down, kept only inside [1, 20]. */
  function WheelThickness(thickness: int, delta: int): (r: int)
    ensures r == thickness || MinThickness <= r <= MaxThickness
    ensures r != thickness <==>
      var n := if delta > 0 then thickness + 1 else thickness - 1; MinThickness <= n <= MaxThickness
    ensures r != thickness ==> r - thickness == if delta > 0 then 1 else -1
  {
    var newThickness := thickness + if delta > 0 then 1 else -1;
    if MinThickness <= newThickness <= MaxThickness then newThickness else thickness
  }

  /** Thickness in range stays in range, whatever the wheel does. */
  lemma WheelKeepsRange(thickness: int, delta: int)
    requires MinThickness <= thickness <= MaxThickness
    ensures MinThickness <= WheelThickness(thickness, delta) <= MaxThickness
  {
  }

  /** UIElementCollection.Remove: drops the first occurrence, if any. */
  function RemoveFirst(s: seq<Element>, e: Element): (r: seq<Element>)
    ensures e !in s ==> r == s
    ensures e in s ==> |r| == |s| - 1 && multiset(r) == multiset(s) - multiset{e}
  {
    if s == [] then []
    else
      assert s == [s[0]] + s[1..];
      if s[0] == e then s[1..] else [s[0]] + RemoveFirst(s[1..], e)
  }

  /** The element StartDrawing puts on the canvas: the shape in progress,
      else the path in progress, else none. */
  function Placed(shape: Option<Element>, path: Option<Element>): (r: Option<Element>)
    ensures r.Some? <==> shape.Some? || path.Some?
    ensures r.Some? ==> r == shape || r == path
    ensures shape.Some? ==> r == shape
  {
    if shape.Some? then shape else path
  }

  class ScreenshotWindow {
    var isSelecting: bool
    var isEditing: bool
    var drawingMode: DrawingMode
    var thickness: int
    var startPoint: Point
    var endPoint: Point
    /** selectionRect; None is Rect.Empty. */
    var selection: Option<Rect>
    var mouseCaptured: bool
    /** The stacks, top last. */
    var undoStack: seq<Element>
    var redoStack: seq<Element>
    /** The drawing canvas's children, in z-order. */
    var canvas: seq<Element>
    var currentDrawingElement: Option<Element>
    var currentBrushPath: Option<Element>
    /** The next element identity to hand out. */
    var nextElement: nat

    /** The two modes are never on together. */
    ghost predicate Valid()
      reads this
    {
      !(isSelecting && isEditing)
    }

    /** Red brush, thickness 3, rectangle tool; neither mode yet. */
    constructor ()
      ensures Valid() && !isSelecting && !isEditing
      ensures thickness == 3 && drawingMode == Rectangle
      ensures undoStack == [] && redoStack == [] && canvas == []
      ensures currentDrawingElement.None? && currentBrushPath.None?
    {
      isSelecting, isEditing := false, false;
      drawingMode := Rectangle;
      thickness := 3;
      startPoint, endPoint := Point(0, 0), Point(0, 0);
      selection := Some(Rect(0, 0, 0, 0));
      mouseCaptured := false;
      undoStack, redoStack, canvas := [], [], [];
      currentDrawingElement, currentBrushPath := None, None;
      nextElement := 0;
    }

    /** Selection mode: the selection is reset, nothing is in progress and
        both stacks are emptied. The canvas keeps its children. */
    method EnterSelectionMode()
      modifies this`isSelecting, this`isEditing, this`selection, this`currentDrawingElement,
        this`currentBrushPath, this`undoStack, this`redoStack
      ensures Valid() && isSelecting && !isEditing
      ensures selection.None? && currentDrawingElement.None? && currentBrushPath.None?
      ensures undoStack == [] && redoStack == []
    {
      isSelecting := true;
      isEditing := false;
      selection := None;
      currentDrawingElement := None;
      currentBrushPath := None;
      undoStack := [];
      redoStack := [];
    }

    /** Editing mode: nothing is in progress; the stacks are kept. */
    method EnterEditingMode()
      modifies this`isSelecting, this`isEditing, this`currentDrawingElement, this`currentBrushPath
      ensures Valid() && !isSelecting && isEditing
      ensures currentDrawingElement.None? && currentBrushPath.None?
    {
      isSelecting := false;
      isEditing := true;
      currentDrawingElement := None;
      currentBrushPath := None;
    }

    /** A left press in selection mode starts a drag at p. */
    method MouseDown(p: Point, leftButton: bool)
      modifies this`startPoint, this`endPoint, this`selection, this`mouseCaptured
      ensures isSelecting && leftButton ==>
        startPoint == p && endPoint == p && selection == Some(Rect(p.x, p.y, 0, 0)) && mouseCaptured
      ensures !(isSelecting && leftButton) ==>
        startPoint == old(startPoint) && endPoint == old(endPoint) && selection == old(selection)
        && mouseCaptured == old(mouseCaptured)
    {
      if isSelecting && leftButton {
        startPoint := p;
        endPoint := p;
        selection := Some(NormalizedRect(startPoint, endPoint));
        mouseCaptured := true;
      }
    }

    /** Dragging moves the second corner. */
    method MouseMove(p: Point)
      modifies this`endPoint, this`selection
      ensures isSelecting && mouseCaptured ==> endPoint == p && selection == Some(NormalizedRect(startPoint, p))
      ensures !(isSelecting && mouseCaptured) ==> endPoint == old(endPoint) && selection == old(selection)
    {
      if isSelecting && mouseCaptured {
        endPoint := p;
        selection := Some(NormalizedRect(startPoint, endPoint));
      }
    }

    /** Releasing the drag: a selection under 10 on either side is reset,
        so what remains is either empty or capturable. */
    method MouseUp()
      modifies this`selection, this`mouseCaptured
      ensures old(isSelecting && mouseCaptured) ==>
        !mouseCaptured
        && (Capturable(old(selection)) ==> selection == old(selection))
        && (!Capturable(old(selection)) ==> selection.None?)
      ensures !old(isSelecting && mouseCaptured) ==>
        selection == old(selection) && mouseCaptured == old(mouseCaptured)
    {
      if isSelecting && mouseCaptured {
        if !Capturable(selection) {
          selection := None;
        }
        mouseCaptured := false;
      }
    }

    /** Whether a double click or Enter takes the screenshot. */
    predicate CanCapture()
      reads this
    {
      isSelecting && Capturable(selection)
    }

    /** TakeScreenshot, reached only when CanCapture: a captured bitmap
        switches to editing over a cleared canvas; a null bitmap leaves
        the selection as it was. A capture that throws, which cancels the
        screenshot and closes the window, is not part of this model. */
    method TakeScreenshot(captured: bool)
      requires Valid() && CanCapture()
      modifies this
      ensures Valid()
      ensures captured ==> isEditing && !isSelecting && canvas == [] && undoStack == [] && redoStack == []
      ensures !captured ==> isSelecting && canvas == old(canvas) && undoStack == old(undoStack)
    {
      if captured {
        EnterEditingMode();
        ClearDrawings();
      }
    }

    /** Ctrl+wheel in editing mode adjusts the thickness. */
    method MouseWheel(control: bool, delta: int) returns (handled: bool)
      modifies this`thickness
      ensures handled <==> isEditing && control
      ensures handled ==> thickness == WheelThickness(old(thickness), delta)
      ensures !handled ==> thickness == old(thickness)
    {
      handled := false;
      if isEditing && control {
        var newThickness := thickness + if delta > 0 then 1 else -1;
        if MinThickness <= newThickness <= MaxThickness {
          thickness := newThickness;
        }
        handled := true;
      }
    }

    /** A new element, added on top of the canvas. */
    method NewElement() returns (e: Element)
      modifies this`nextElement, this`canvas
      ensures e == old(nextElement) && nextElement == old(nextElement) + 1
      ensures canvas == old(canvas) + [e]
    {
      e := nextElement;
      nextElement := nextElement + 1;
      canvas := canvas + [e];
    }

    /** StartDrawing: the shape tools start a shape, the brush a path; then
        the shape in progress, else the path in progress, is added to the
        canvas. Adding an element the canvas already holds throws (a WPF
        element has one parent); that happens to a shape left in progress
        by a release off the canvas, once the brush or no tool is chosen.
        The answer is false when it throws, after the tool fields have
        been set and with the canvas unchanged. */
    method StartDrawing() returns (ok: bool)
      modifies this`currentDrawingElement, this`currentBrushPath, this`canvas, this`nextElement
      ensures drawingMode in {Rectangle, Ellipse, Line, Arrow} ==>
        currentDrawingElement == Some(old(nextElement)) && currentBrushPath == old(currentBrushPath)
        && nextElement == old(nextElement) + 1
      ensures drawingMode == Brush ==>
        currentBrushPath == Some(old(nextElement)) && currentDrawingElement == old(currentDrawingElement)
        && nextElement == old(nextElement) + 1
      ensures drawingMode !in {Rectangle, Ellipse, Line, Arrow, Brush} ==>
        currentDrawingElement == old(currentDrawingElement) && currentBrushPath == old(currentBrushPath)
        && nextElement == old(nextElement)
      ensures var placed := Placed(currentDrawingElement, currentBrushPath);
        && (ok <==> placed.None? || placed.value !in old(canvas))
        && canvas == old(canvas) + (if ok && placed.Some? then [placed.value] else [])
    {
      var e := nextElement;
      if drawingMode in {Rectangle, Ellipse, Line, Arrow} {
        currentDrawingElement := Some(e);
        nextElement := nextElement + 1;
      } else if drawingMode == Brush {
        currentBrushPath := Some(e);
        nextElement := nextElement + 1;
      }
      var placed := Placed(currentDrawingElement, currentBrushPath);
      if placed.Some? {
        if placed.value in canvas {
          return false;
        }
        canvas := canvas + [placed.value];
      }
      ok := true;
    }

    /** FinishDrawing: the in-progress path, else the in-progress shape,
        moves onto the undo stack and the redo stack is emptied. */
    method FinishDrawing()
      modifies this`undoStack, this`redoStack, this`currentDrawingElement, this`currentBrushPath
      ensures old(currentBrushPath).Some? ==>
        undoStack == old(undoStack) + [old(currentBrushPath).value] && redoStack == []
        && currentBrushPath.None? && currentDrawingElement == old(currentDrawingElement)
      ensures old(currentBrushPath).None? && old(currentDrawingElement).Some? ==>
        undoStack == old(undoStack) + [old(currentDrawingElement).value] && redoStack == []
        && currentDrawingElement.None? && currentBrushPath.None?
      ensures old(currentBrushPath).None? && old(currentDrawingElement).None? ==>
        undoStack == old(undoStack) && redoStack == old(redoStack)
        && currentDrawingElement.None? && currentBrushPath.None?
    {
      if currentBrushPath.Some? {
        undoStack := undoStack + [currentBrushPath.value];
        redoStack := [];
        currentBrushPath := None;
      } else if currentDrawingElement.Some? {
        undoStack := undoStack + [currentDrawingElement.value];
        redoStack := [];
        currentDrawingElement := None;
      }
    }

    /** A text box placed for typing; it is not undoable yet. */
    method AddTextElement() returns (box: Element)
      modifies this`nextElement, this`canvas
      ensures box == old(nextElement) && nextElement == old(nextElement) + 1
      ensures canvas == old(canvas) + [box]
    {
      box := NewElement();
    }

    /** The text box losing focus: blank text removes it; otherwise it is
        replaced by a text block that goes onto the undo stack. */
    method CommitText(box: Element, text: String) returns (block: Option<Element>)
      modifies this`nextElement, this`canvas, this`undoStack, this`redoStack
      ensures IsNullOrWhiteSpace(Some(text)) ==>
        block.None? && canvas == RemoveFirst(old(canvas), box)
        && undoStack == old(undoStack) && redoStack == old(redoStack)
      ensures !IsNullOrWhiteSpace(Some(text)) ==>
        block == Some(old(nextElement)) && canvas == RemoveFirst(old(canvas), box) + [block.value]
        && undoStack == old(undoStack) + [block.value] && redoStack == []
    {
      if IsNullOrWhiteSpace(Some(text)) {
        canvas := RemoveFirst(canvas, box);
        return None;
      }
      canvas := RemoveFirst(canvas, box);
      var e := NewElement();
      undoStack := undoStack + [e];
      redoStack := [];
      block := Some(e);
    }

    /** A mosaic square is added and pushed onto the undo stack. */
    method AddMosaicElement() returns (m: Element)
      modifies this`nextElement, this`canvas, this`undoStack, this`redoStack
      ensures m == old(nextElement) && nextElement == old(nextElement) + 1
      ensures canvas == old(canvas) + [m]
      ensures undoStack == old(undoStack) + [m] && redoStack == []
    {
      m := NewElement();
      undoStack := undoStack + [m];
      redoStack := [];
    }

    /** A press on the canvas while editing: text and mosaic tools add
        their element, the others start drawing. The answer is false when
        StartDrawing throws. */
    method CanvasMouseDown() returns (ok: bool)
      modifies this`nextElement, this`canvas, this`undoStack, this`redoStack,
        this`currentDrawingElement, this`currentBrushPath
      ensures !isEditing ==>
        ok && canvas == old(canvas) && undoStack == old(undoStack) && redoStack == old(redoStack)
        && nextElement == old(nextElement)
        && currentDrawingElement == old(currentDrawingElement) && currentBrushPath == old(currentBrushPath)
      ensures isEditing && drawingMode in {TextMode, Mosaic} ==>
        ok && canvas == old(canvas) + [old(nextElement)] && nextElement == old(nextElement) + 1
        && currentDrawingElement == old(currentDrawingElement) && currentBrushPath == old(currentBrushPath)
      ensures isEditing && drawingMode == TextMode ==>
        undoStack == old(undoStack) && redoStack == old(redoStack)
      ensures isEditing && drawingMode == Mosaic ==>
        undoStack == old(undoStack) + [old(nextElement)] && redoStack == []
      ensures isEditing && drawingMode in {Rectangle, Ellipse, Line, Arrow} ==>
        currentDrawingElement == Some(old(nextElement)) && currentBrushPath == old(currentBrushPath)
        && nextElement == old(nextElement) + 1
      ensures isEditing && drawingMode == Brush ==>
        currentBrushPath == Some(old(nextElement)) && currentDrawingElement == old(currentDrawingElement)
        && nextElement == old(nextElement) + 1
      ensures isEditing && drawingMode == NoMode ==>
        currentDrawingElement == old(currentDrawingElement) && currentBrushPath == old(currentBrushPath)
        && nextElement == old(nextElement)
      ensures isEditing && drawingMode !in {TextMode, Mosaic} ==>
        var placed := Placed(currentDrawingElement, currentBrushPath);
        && undoStack == old(undoStack) && redoStack == old(redoStack)
        && (ok <==> placed.None? || placed.value !in old(canvas))
        && canvas == old(canvas) + (if ok && placed.Some? then [placed.value] else [])
    {
      ok := true;
      if !isEditing {
        return;
      }
      if drawingMode == TextMode {
        var _ := AddTextElement();
      } else if drawingMode == Mosaic {
        var _ := AddMosaicElement();
      } else {
        ok := StartDrawing();
      }
    }

    /** Releasing on the canvas while editing finishes the drawing. */
    method CanvasMouseUp()
      modifies this`undoStack, this`redoStack, this`currentDrawingElement, this`currentBrushPath
      ensures !isEditing ==>
        undoStack == old(undoStack) && redoStack == old(redoStack)
        && currentDrawingElement == old(currentDrawingElement) && currentBrushPath == old(currentBrushPath)
      ensures isEditing && old(currentBrushPath).Some? ==>
        undoStack == old(undoStack) + [old(currentBrushPath).value] && redoStack == []
        && currentBrushPath.None? && currentDrawingElement == old(currentDrawingElement)
      ensures isEditing && old(currentBrushPath).None? && old(currentDrawingElement).Some? ==>
        undoStack == old(undoStack) + [old(currentDrawingElement).value] && redoStack == []
        && currentDrawingElement.None? && currentBrushPath.None?
      ensures isEditing && old(currentBrushPath).None? && old(currentDrawingElement).None? ==>
        undoStack == old(undoStack) && redoStack == old(redoStack)
        && currentDrawingElement.None? && currentBrushPath.None?
    {
      if isEditing {
        FinishDrawing();
      }
    }

    /** Everything drawn is removed and both stacks are emptied. */
    method ClearDrawings()
      modifies this`canvas, this`undoStack, this`redoStack
      ensures canvas == [] && undoStack == [] && redoStack == []
    {
      canvas := [];
      undoStack := [];
      redoStack := [];
    }

    /** Undo: the top of the undo stack leaves the canvas and goes onto
        the redo stack. */
    method Undo()
      modifies this`undoStack, this`redoStack, this`canvas
      ensures old(undoStack) == [] ==>
        undoStack == [] && redoStack == old(redoStack) && canvas == old(canvas)
      ensures old(undoStack) != [] ==>
        var e := old(undoStack)[|old(undoStack)| - 1];
        && undoStack == old(undoStack)[..|old(undoStack)| - 1]
        && redoStack == old(redoStack) + [e]
        && canvas == RemoveFirst(old(canvas), e)
    {
      if |undoStack| > 0 {
        var element := undoStack[|undoStack| - 1];
        undoStack := undoStack[..|undoStack| - 1];
        canvas := RemoveFirst(canvas, element);
        redoStack := redoStack + [element];
      }
    }

    /** Redo: the mirror of Undo; the element is put back on top. */
    method Redo()
      modifies this`undoStack, this`redoStack, this`canvas
      ensures old(redoStack) == [] ==>
        redoStack == [] && undoStack == old(undoStack) && canvas == old(canvas)
      ensures old(redoStack) != [] ==>
        var e := old(redoStack)[|old(redoStack)| - 1];
        && redoStack == old(redoStack)[..|old(redoStack)| - 1]
        && undoStack == old(undoStack) + [e]
        && canvas == old(canvas) + [e]
    {
      if |redoStack| > 0 {
        var element := redoStack[|redoStack| - 1];
        redoStack := redoStack[..|redoStack| - 1];
        canvas := canvas + [element];
        undoStack := undoStack + [element];
      }
    }
  }

  /** Undo then Redo gives back both stacks and the canvas's contents
      when the undone element was on the canvas; it returns on top. */
  method UndoThenRedo(w: ScreenshotWindow)
    requires w.undoStack != []
    requires w.undoStack[|w.undoStack| - 1] in w.canvas
    modifies w
    ensures w.undoStack == old(w.undoStack) && w.redoStack == old(w.redoStack)
    ensures multiset(w.canvas) == multiset(old(w.canvas))
    ensures |w.canvas| > 0 && w.canvas[|w.canvas| - 1] == old(w.undoStack)[|old(w.undoStack)| - 1]
  {
    ghost var u := w.undoStack;
    ghost var r := w.redoStack;
    w.Undo();
    w.Redo();
    assert u[..|u| - 1] + [u[|u| - 1]] == u;
    assert (r + [u[|u| - 1]])[..|r|] == r;
  }

  /** A rectangle whose release landed off the canvas stays in progress;
      a later press with the brush puts it on the canvas a second time,
      and that throws. */
  method StaleShapeBreaksBrush() returns (first: bool, second: bool)
    ensures first && !second
  {
    var w := new ScreenshotWindow();
    w.EnterEditingMode();
    first := w.CanvasMouseDown();
    w.drawingMode := Brush;
    second := w.CanvasMouseDown();
  }
}
