/**
 * The polygon capture component: a click either adds a vertex to the polygon being drawn or, near
 * its first vertex, closes it; the `n`/`N` key closes it too; closed polygons of three or more
 * vertices are kept in two parallel lists (the vertex lists for export, and the drawn shapes);
 * reset clears everything; export makes one labelled mask per kept polygon.
 *
 * The Konva drawing (vertex circles, connecting lines, layers, the shape handles themselves) has no
 * effect on this state and is not modelled. `Capture` is the component's state as a value, with one
 * function per transition; the class `PolygonComponent` holds the same state in fields. Its
 * constructor and event handlers are proved to follow those functions and to keep `Valid()`;
 * `DrawPolygon` is the half-step of `ClosePolygon` that pushes onto `polygons` only, and
 * `ExportMask` only reads the state.
 */
module PolygonCapture {
  import opened Wrappers
  import opened Geometry
  import opened MaskService

  /** An entry of the drawn-polygon list: a copy of the closed vertex list (the shape handle is not modelled). */
  datatype DrawnPolygon = DrawnPolygon(vertices: seq<Vertex>)

  /** The component's state: the open vertex buffer and the two lists of finished polygons. */
  datatype Capture = Capture(current: seq<Vertex>, all: seq<seq<Vertex>>, drawn: seq<DrawnPolygon>)

  /** An input the component reacts to. */
  datatype Event =
    | Pointer(pos: Option<Vertex>)  // a click or touch; `None` when the stage reports no pointer position
    | KeyDown(key: string)
    | ResetRequest

  /**
   * The component's invariant: the two finished-polygon lists have the same length and hold the
   * same vertex lists in the same order, each of at least three vertices.
   */
  predicate Consistent(s: Capture) {
    && |s.all| == |s.drawn|
    && (forall i :: 0 <= i < |s.all| ==> s.drawn[i].vertices == s.all[i])
    && (forall i :: 0 <= i < |s.all| ==> |s.all[i]| >= 3)
  }

  /** The state of a newly created component. */
  const Initial := Capture([], [], [])

  /** True when the buffer has a first vertex and `pos` is within the closing radius of it. */
  predicate NearFirstVertex(s: Capture, pos: Vertex) {
    |s.current| > 0 && WithinCloseRadius(pos, s.current[0])
  }

  /** Closing: a buffer of more than two vertices becomes a finished polygon; the buffer is emptied. */
  function Closed(s: Capture): Capture {
    if |s.current| > 2 then
      Capture([], s.all + [s.current], s.drawn + [DrawnPolygon(s.current)])
    else
      Capture([], s.all, s.drawn)
  }

  /** A pointer event: closes near the first vertex, appends the point otherwise. */
  function Clicked(s: Capture, pos: Option<Vertex>): Capture {
    match pos
    case None => s
    case Some(p) =>
      if NearFirstVertex(s, p) then Closed(s)
      else s.(current := s.current + [p])
  }

  /** A key press: `n` or `N` closes, whatever the pointer position; other keys do nothing. */
  function KeyPressed(s: Capture, key: string): Capture {
    if key == "n" || key == "N" then Closed(s) else s
  }

  /** The state after one event. */
  function Step(s: Capture, e: Event): Capture {
    match e
    case Pointer(pos) => Clicked(s, pos)
    case KeyDown(key) => KeyPressed(s, key)
    case ResetRequest => Initial
  }

  /** The state after a sequence of events, in order. */
  function Run(s: Capture, events: seq<Event>): Capture
    decreases |events|
  {
    if events == [] then s else Run(Step(s, events[0]), events[1..])
  }

  /**
   * What closing does: the buffer is always emptied; with more than two vertices exactly one entry
   * equal to the buffer is appended to each list; otherwise both lists are unchanged.
   */
  lemma ClosedEffect(s: Capture)
    ensures Closed(s).current == []
    ensures |s.current| > 2 ==>
              && Closed(s).all == s.all + [s.current]
              && Closed(s).drawn == s.drawn + [DrawnPolygon(s.current)]
    ensures |s.current| <= 2 ==> Closed(s).all == s.all && Closed(s).drawn == s.drawn
  {
  }

  /**
   * A click is a close exactly when the buffer is non-empty and the point is strictly within the
   * closing radius of the first vertex; any other click appends the point at the end of the buffer
   * and changes nothing else.
   */
  lemma ClickedEffect(s: Capture, p: Vertex)
    ensures NearFirstVertex(s, p) ==> Clicked(s, Some(p)) == Closed(s)
    ensures !NearFirstVertex(s, p) ==>
              && Clicked(s, Some(p)).current == s.current + [p]
              && Clicked(s, Some(p)).all == s.all
              && Clicked(s, Some(p)).drawn == s.drawn
  {
  }

  /**
   * The closing threshold is strict: a click at distance exactly 10 from the first vertex is
   * appended like any other, and closes nothing.
   */
  lemma BoundaryClickAppends(s: Capture, p: Vertex)
    requires |s.current| > 0 && SquaredDistance(p, s.current[0]) == CloseRadius * CloseRadius
    ensures Clicked(s, Some(p)) == s.(current := s.current + [p])
  {
    BoundaryIsOutside(p, s.current[0]);
  }

  /** Closing keeps the invariant. */
  lemma ClosedConsistent(s: Capture)
    requires Consistent(s)
    ensures Consistent(Closed(s))
  {
    if |s.current| > 2 {
      var t := Closed(s);
      forall i | 0 <= i < |t.all|
        ensures t.drawn[i].vertices == t.all[i] && |t.all[i]| >= 3
      {
        if i < |s.all| {
          assert t.all[i] == s.all[i] && t.drawn[i] == s.drawn[i];
        }
      }
    }
  }

  /** Every event keeps the invariant. */
  lemma StepConsistent(s: Capture, e: Event)
    requires Consistent(s)
    ensures Consistent(Step(s, e))
  {
    match e
    case Pointer(pos) =>
      if pos.Some? && NearFirstVertex(s, pos.value) {
        ClosedConsistent(s);
      }
    case KeyDown(key) =>
      ClosedConsistent(s);
    case ResetRequest =>
  }

  /** Any sequence of events from a consistent state leads to a consistent state. */
  lemma {:induction false} RunConsistent(s: Capture, events: seq<Event>)
    requires Consistent(s)
    ensures Consistent(Run(s, events))
    decreases |events|
  {
    if events != [] {
      StepConsistent(s, events[0]);
      RunConsistent(Step(s, events[0]), events[1..]);
    }
  }

  /**
   * No vertex list held by the component, open or finished, has a vertex after the first within the
   * closing radius of the first one.
   */
  predicate ClearOfFirstVertices(s: Capture) {
    && ClearOfFirstVertex(s.current)
    && forall i :: 0 <= i < |s.all| ==> ClearOfFirstVertex(s.all[i])
  }

  /** No single event puts a later vertex inside the closing circle of its polygon's first vertex. */
  lemma StepClear(s: Capture, e: Event)
    requires ClearOfFirstVertices(s)
    ensures ClearOfFirstVertices(Step(s, e))
  {
    var t := Step(s, e);
    if e.Pointer? && e.pos.Some? && !NearFirstVertex(s, e.pos.value) {
      var p := e.pos.value;
      assert t.current == s.current + [p] && t.all == s.all;
      forall k | 1 <= k < |t.current|
        ensures !WithinCloseRadius(t.current[k], t.current[0])
      {
        if k < |s.current| {
          assert t.current[k] == s.current[k];
        }
      }
    } else if t != Initial && t != s {
      assert t == Closed(s);
      forall i | 0 <= i < |t.all|
        ensures ClearOfFirstVertex(t.all[i])
      {
        if i < |s.all| {
          assert t.all[i] == s.all[i];
        }
      }
    }
  }

  /**
   * Whatever the events, the component never holds a vertex list with a later vertex inside the
   * first vertex's closing radius: such a click closes the polygon instead of being appended.
   */
  lemma {:induction false} RunClear(s: Capture, events: seq<Event>)
    requires ClearOfFirstVertices(s)
    ensures ClearOfFirstVertices(Run(s, events))
    decreases |events|
  {
    if events != [] {
      StepClear(s, events[0]);
      RunClear(Step(s, events[0]), events[1..]);
    }
  }

  /** Finished polygons are only ever appended: events other than reset keep the earlier ones as a prefix. */
  lemma {:induction false} RunExtendsPolygons(s: Capture, events: seq<Event>)
    requires forall k :: 0 <= k < |events| ==> !events[k].ResetRequest?
    ensures s.all <= Run(s, events).all
    ensures s.drawn <= Run(s, events).drawn
    decreases |events|
  {
    if events != [] {
      var t := Step(s, events[0]);
      assert s.all <= t.all && s.drawn <= t.drawn;
      RunExtendsPolygons(t, events[1..]);
    }
  }

  /** A reset leaves nothing behind, whatever came before it. */
  lemma {:induction false} ResetForgetsHistory(s: Capture, before: seq<Event>, after: seq<Event>)
    ensures Run(s, before + [ResetRequest] + after) == Run(Initial, after)
    decreases |before|
  {
    if before == [] {
      assert before + [ResetRequest] + after == [ResetRequest] + after;
      assert ([ResetRequest] + after)[1..] == after;
    } else {
      assert (before + [ResetRequest] + after)[1..] == before[1..] + [ResetRequest] + after;
      ResetForgetsHistory(Step(s, before[0]), before[1..], after);
    }
  }

  /**
   * Closing by proximity: four clicks, each later one on or outside the closing circle of the
   * first, then a click inside it, give one finished polygon with the four vertices in order.
   */
  lemma FourClicksThenNearClickClose(a: Vertex, b: Vertex, c: Vertex, d: Vertex, near: Vertex)
    requires !WithinCloseRadius(b, a) && !WithinCloseRadius(c, a) && !WithinCloseRadius(d, a)
    requires WithinCloseRadius(near, a)
    ensures Run(Initial, [Pointer(Some(a)), Pointer(Some(b)), Pointer(Some(c)), Pointer(Some(d)), Pointer(Some(near))])
            == Capture([], [[a, b, c, d]], [DrawnPolygon([a, b, c, d])])
  {
    var s1 := Capture([a], [], []);
    var s2 := Capture([a, b], [], []);
    var s3 := Capture([a, b, c], [], []);
    var s4 := Capture([a, b, c, d], [], []);
    var done := Capture([], [[a, b, c, d]], [DrawnPolygon([a, b, c, d])]);
    assert Step(s4, Pointer(Some(near))) == done;
    RunCons(s4, Pointer(Some(near)), []);
    assert Step(s3, Pointer(Some(d))) == s4;
    RunCons(s3, Pointer(Some(d)), [Pointer(Some(near))]);
    assert Step(s2, Pointer(Some(c))) == s3;
    RunCons(s2, Pointer(Some(c)), [Pointer(Some(d)), Pointer(Some(near))]);
    assert Step(s1, Pointer(Some(b))) == s2;
    RunCons(s1, Pointer(Some(b)), [Pointer(Some(c)), Pointer(Some(d)), Pointer(Some(near))]);
    assert Step(Initial, Pointer(Some(a))) == s1;
    RunCons(Initial, Pointer(Some(a)), [Pointer(Some(b)), Pointer(Some(c)), Pointer(Some(d)), Pointer(Some(near))]);
  }

  /**
   * The square example: the corners of an axis-aligned square of side 10 with corner (x, y), clicked
   * in the order (x, y), (x + 10, y), (x + 10, y + 10), (x, y + 10), then a click at (x + 2, y + 2),
   * about 2.83 from the first corner, give one finished polygon with those corners in order.
   */
  lemma SquareClosedByNearClick(x: real, y: real)
    ensures var square := [Vertex(x, y), Vertex(x + 10.0, y), Vertex(x + 10.0, y + 10.0), Vertex(x, y + 10.0)];
            var events := [Pointer(Some(square[0])), Pointer(Some(square[1])), Pointer(Some(square[2])),
                           Pointer(Some(square[3])), Pointer(Some(Vertex(x + 2.0, y + 2.0)))];
            Run(Initial, events) == Capture([], [square], [DrawnPolygon(square)])
  {
    SquareDistances(x, y);
    FourClicksThenNearClickClose(Vertex(x, y), Vertex(x + 10.0, y), Vertex(x + 10.0, y + 10.0),
                                 Vertex(x, y + 10.0), Vertex(x + 2.0, y + 2.0));
  }

  /** The corners of the square lie on or outside the closing circle of the first; the click lies inside. */
  lemma SquareDistances(x: real, y: real)
    ensures !WithinCloseRadius(Vertex(x + 10.0, y), Vertex(x, y))
    ensures !WithinCloseRadius(Vertex(x + 10.0, y + 10.0), Vertex(x, y))
    ensures !WithinCloseRadius(Vertex(x, y + 10.0), Vertex(x, y))
    ensures WithinCloseRadius(Vertex(x + 2.0, y + 2.0), Vertex(x, y))
  {
    assert x + 10.0 - x == 10.0 && y + 10.0 - y == 10.0 && x - x == 0.0 && y - y == 0.0;
    assert x + 2.0 - x == 2.0 && y + 2.0 - y == 2.0;
  }

  /** Running a non-empty sequence of events is one step followed by the rest. */
  lemma RunCons(s: Capture, e: Event, rest: seq<Event>)
    ensures Run(s, [e] + rest) == Run(Step(s, e), rest)
  {
    assert ([e] + rest)[0] == e && ([e] + rest)[1..] == rest;
  }

  /** The width and height of every exported mask. */
  const ExportSize: nat := 200

  /** The decimal numeral of `n`, as a template literal prints it. */
  function Decimal(n: nat): string
    decreases n
  {
    if n < 10 then [DigitChar(n)] else Decimal(n / 10) + [DigitChar(n % 10)]
  }

  /** The character of the decimal digit `d`. */
  function DigitChar(d: nat): char
    requires d < 10
  {
    ('0' as int + d) as char
  }

  /** The key under which the mask of the polygon at `index` is exported: `polygon1Mask`, `polygon2Mask`, … */
  function Label(index: nat): string {
    "polygon" + Decimal(index + 1) + "Mask"
  }

  /** Distinct numbers have distinct numerals. */
  lemma {:induction false} DecimalInjective(a: nat, b: nat)
    requires Decimal(a) == Decimal(b)
    ensures a == b
    decreases a
  {
    var da, db := Decimal(a), Decimal(b);
    if a < 10 && b < 10 {
    } else if a < 10 {
      DecimalLong(b);
    } else if b < 10 {
      DecimalLong(a);
    } else {
      assert da[|da| - 1] == DigitChar(a % 10) && db[|db| - 1] == DigitChar(b % 10);
      assert da[..|da| - 1] == Decimal(a / 10) && db[..|db| - 1] == Decimal(b / 10);
      DecimalInjective(a / 10, b / 10);
    }
  }

  /** Numbers of ten and above have at least two digits. */
  lemma {:induction false} DecimalLong(n: nat)
    requires n >= 10
    ensures |Decimal(n)| >= 2
  {
    assert |Decimal(n / 10)| >= 1 by {
      if n / 10 >= 10 {
        DecimalLong(n / 10);
      }
    }
  }

  /** Distinct polygons are exported under distinct keys. */
  lemma LabelInjective(i: nat, j: nat)
    requires i != j
    ensures Label(i) != Label(j)
  {
    if Label(i) == Label(j) {
      var li, lj := Label(i), Label(j);
      assert li[7..|li| - 4] == Decimal(i + 1);
      assert lj[7..|lj| - 4] == Decimal(j + 1);
      DecimalInjective(i + 1, j + 1);
      assert false;
    }
  }

  /** One exported entry: the key and the mask buffer stored under it. */
  datatype MaskEntry = MaskEntry(key: string, mask: array<byte>)

  /** Why an export produced nothing. */
  datatype ExportError =
    | NoPolygons               // nothing finished yet: the source warns and returns
    | MaskFailed(cause: MaskError)  // the mask service threw

  class PolygonComponent {
    var currentVertices: seq<Vertex>
    var allPolygons: seq<seq<Vertex>>
    var polygons: seq<DrawnPolygon>

    /** The fields as a `Capture` value. */
    function State(): Capture
      reads this
    {
      Capture(currentVertices, allPolygons, polygons)
    }

    /** The object invariant: established by the constructor, kept by every method. */
    ghost predicate Valid()
      reads this
    {
      Consistent(State())
    }

    constructor ()
      ensures State() == Initial && Valid()
    {
      currentVertices := [];
      allPolygons := [];
      polygons := [];
    }

    /** `isNearFirstVertex`: the source reads `currentVertices[0]`, so it is called only on a non-empty buffer. */
    predicate IsNearFirstVertex(pos: Vertex)
      requires |currentVertices| > 0
      reads this
    {
      WithinCloseRadius(pos, currentVertices[0])
    }

    /** The click/touch handler. */
    method OnPointer(pos: Option<Vertex>)
      requires Valid()
      modifies this
      ensures Valid()
      ensures State() == Clicked(old(State()), pos)
    {
      if pos.Some? {
        if |currentVertices| > 0 && IsNearFirstVertex(pos.value) {
          ClosePolygon();
        } else {
          currentVertices := currentVertices + [pos.value];
        }
      }
    }

    /** The `keydown` handler. */
    method OnKeyDown(key: string)
      requires Valid()
      modifies this
      ensures Valid()
      ensures State() == KeyPressed(old(State()), key)
    {
      if key == "n" || key == "N" {
        ClosePolygon();
      }
    }

    /** `drawPolygon`, its list push only: records a buffer of more than two vertices as a drawn polygon. */
    method DrawPolygon()
      modifies this`polygons
      ensures polygons == if |currentVertices| > 2 then old(polygons) + [DrawnPolygon(currentVertices)]
                          else old(polygons)
    {
      if |currentVertices| > 2 {
        polygons := polygons + [DrawnPolygon(currentVertices)];
      }
    }

    /** `closePolygon`. */
    method ClosePolygon()
      requires Valid()
      modifies this
      ensures Valid()
      ensures State() == Closed(old(State()))
    {
      ClosedConsistent(State());
      if |currentVertices| > 2 {
        DrawPolygon();
        allPolygons := allPolygons + [currentVertices];
      }
      currentVertices := [];
    }

    /** `resetPolygons`. */
    method ResetPolygons()
      modifies this
      ensures Valid()
      ensures State() == Initial
    {
      polygons := [];
      allPolygons := [];
      currentVertices := [];
    }

    /**
     * `exportMask`: with no finished polygon, nothing; otherwise one entry per finished polygon, in
     * order, keyed `polygon<i+1>Mask` and holding the 200-by-200 mask of that polygon's vertices.
     */
    method ExportMask(fillCtx: Option<Context2D>, displayCtx: Option<Context2D>)
      returns (r: Result<seq<MaskEntry>, ExportError>)
      requires Valid()
      ensures allPolygons == [] ==> r == Err(NoPolygons)
      ensures allPolygons != [] && (fillCtx.None? || displayCtx.None?) ==>
                r == Err(MaskFailed(ContextUnavailable))
      ensures allPolygons != [] && fillCtx.Some? && displayCtx.Some? ==> r.Ok?
      ensures r.Ok? ==>
                && |r.value| == |allPolygons|
                && (forall i :: 0 <= i < |r.value| ==>
                      && r.value[i].key == Label(i)
                      && r.value[i].mask[..] == MaskOf(fillCtx.value, allPolygons[i], ExportSize, ExportSize))
                && (forall i, j :: 0 <= i < j < |r.value| ==> r.value[i].key != r.value[j].key)
    {
      if |allPolygons| == 0 {
        return Err(NoPolygons);
      }
      var masksData: seq<MaskEntry> := [];
      for index := 0 to |allPolygons|
        invariant |masksData| == index
        invariant (fillCtx.Some? && displayCtx.Some?) || index == 0
        invariant forall i :: 0 <= i < index ==>
                    && masksData[i].key == Label(i)
                    && masksData[i].mask[..] == MaskOf(fillCtx.value, allPolygons[i], ExportSize, ExportSize)
      {
        var maskData := ProcessMask(allPolygons[index], ExportSize, ExportSize, fillCtx, displayCtx);
        if maskData.Err? {
          return Err(MaskFailed(maskData.error));
        }
        masksData := masksData + [MaskEntry(Label(index), maskData.value)];
      }
      forall i, j | 0 <= i < j < |masksData|
        ensures masksData[i].key != masksData[j].key
      {
        LabelInjective(i, j);
      }
      return Ok(masksData);
    }
  }

  /** After a reset there is nothing to export, whatever was drawn before. */
  method ResetThenExport(component: PolygonComponent, fillCtx: Option<Context2D>, displayCtx: Option<Context2D>)
    returns (r: Result<seq<MaskEntry>, ExportError>)
    modifies component
    ensures r == Err(NoPolygons)
  {
    component.ResetPolygons();
    r := component.ExportMask(fillCtx, displayCtx);
  }
}
