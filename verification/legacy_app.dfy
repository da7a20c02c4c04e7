/**
 * The earlier capture component (`AppComponent` in `src/app/chck.ts`): a single vertex list, a click
 * that adds a vertex or, near the first vertex, tries to close; the `n`/`N` key tries to close too.
 * Unlike `PolygonCapture`, closing a list of two or fewer vertices does nothing at all (the list is
 * kept), and the export works on the open vertex list itself: it cuts the polygon out of a white
 * canvas of the stage's size and downloads it as `mask.png`.
 *
 * Drawing (circles, lines, the background image) and the download itself are not modelled.
 */
module LegacyCapture {
  import opened Wrappers
  import opened Geometry

  /** Closing: a list of more than two vertices is drawn and emptied; a shorter one is kept as it is. */
  function Closed(vertices: seq<Vertex>): seq<Vertex> {
    if |vertices| > 2 then [] else vertices
  }

  /** A click: closes near the first vertex, appends the point otherwise. */
  function Clicked(vertices: seq<Vertex>, pos: Option<Vertex>): seq<Vertex> {
    match pos
    case None => vertices
    case Some(p) =>
      if |vertices| > 0 && WithinCloseRadius(p, vertices[0]) then Closed(vertices)
      else vertices + [p]
  }

  /** A key press: `n` or `N` closes; other keys do nothing. */
  function KeyPressed(vertices: seq<Vertex>, key: string): seq<Vertex> {
    if key == "n" || key == "N" then Closed(vertices) else vertices
  }

  /** An input the component reacts to. */
  datatype Event = Click(pos: Option<Vertex>) | KeyDown(key: string)

  function Step(vertices: seq<Vertex>, e: Event): seq<Vertex> {
    match e
    case Click(pos) => Clicked(vertices, pos)
    case KeyDown(key) => KeyPressed(vertices, key)
  }

  /** The vertex list after a sequence of events, in order. */
  function Run(vertices: seq<Vertex>, events: seq<Event>): seq<Vertex>
    decreases |events|
  {
    if events == [] then vertices else Run(Step(vertices, events[0]), events[1..])
  }

  /**
   * A close with two or fewer vertices changes nothing; in particular a click near the only vertex
   * neither closes nor appends.
   */
  lemma ShortCloseIsNoOp(vertices: seq<Vertex>, p: Vertex)
    requires |vertices| <= 2
    ensures Closed(vertices) == vertices
    ensures |vertices| > 0 && WithinCloseRadius(p, vertices[0]) ==> Clicked(vertices, Some(p)) == vertices
  {
  }

  /** A click far from the first vertex, or on an empty list, appends exactly that point. */
  lemma FarClickAppends(vertices: seq<Vertex>, p: Vertex)
    requires |vertices| == 0 || !WithinCloseRadius(p, vertices[0])
    ensures Clicked(vertices, Some(p)) == vertices + [p]
  {
  }

  /** A click at distance exactly 10 from the first vertex is appended: the threshold is strict. */
  lemma BoundaryClickAppends(vertices: seq<Vertex>, p: Vertex)
    requires |vertices| > 0 && SquaredDistance(p, vertices[0]) == CloseRadius * CloseRadius
    ensures Clicked(vertices, Some(p)) == vertices + [p]
  {
    BoundaryIsOutside(p, vertices[0]);
  }

  /** Every event keeps later vertices out of the first vertex's closing radius. */
  lemma StepClear(vertices: seq<Vertex>, e: Event)
    requires ClearOfFirstVertex(vertices)
    ensures ClearOfFirstVertex(Step(vertices, e))
  {
    if e.Click? && e.pos.Some? {
      var p := e.pos.value;
      if |vertices| > 0 && !WithinCloseRadius(p, vertices[0]) {
        var t := vertices + [p];
        assert t[0] == vertices[0];
        forall k | 1 <= k < |t|
          ensures !WithinCloseRadius(t[k], t[0])
        {
          if k < |vertices| {
            assert t[k] == vertices[k];
          }
        }
      }
    }
  }

  /**
   * Whatever the clicks and key presses, no vertex after the first ever lies within the closing
   * radius of the first one.
   */
  lemma {:induction false} RunClear(vertices: seq<Vertex>, events: seq<Event>)
    requires ClearOfFirstVertex(vertices)
    ensures ClearOfFirstVertex(Run(vertices, events))
    decreases |events|
  {
    if events != [] {
      StepClear(vertices, events[0]);
      RunClear(Step(vertices, events[0]), events[1..]);
    }
  }

  /** What an export request did. */
  datatype MaskExport =
    | TooFewVertices  // fewer than three open vertices: the source warns and returns
    | NoContext       // the canvas gave no 2D context: the source returns silently
    | Downloaded(width: nat, height: nat, cutOut: seq<Vertex>, filename: string)
      // a white `width` by `height` image with the polygon `cutOut` made transparent, saved as `filename`

  class AppComponent {
    var vertices: seq<Vertex>

    constructor ()
      ensures vertices == []
    {
      vertices := [];
    }

    /** `isNearFirstVertex`: the source reads `vertices[0]`, so it is called only on a non-empty list. */
    predicate IsNearFirstVertex(pos: Vertex)
      requires |vertices| > 0
      reads this
    {
      WithinCloseRadius(pos, vertices[0])
    }

    /** The click handler. */
    method OnClick(pos: Option<Vertex>)
      modifies this
      ensures vertices == Clicked(old(vertices), pos)
    {
      if pos.Some? {
        if |vertices| > 0 && IsNearFirstVertex(pos.value) {
          ClosePolygon();
        } else {
          vertices := vertices + [pos.value];
        }
      }
    }

    /** The `keydown` handler. */
    method OnKeyDown(key: string)
      modifies this
      ensures vertices == KeyPressed(old(vertices), key)
    {
      if key == "n" || key == "N" {
        ClosePolygon();
      }
    }

    /** `closePolygon`: empties the list only when it has more than two vertices. */
    method ClosePolygon()
      modifies this
      ensures |old(vertices)| > 2 ==> vertices == []
      ensures |old(vertices)| <= 2 ==> vertices == old(vertices)
    {
      if |vertices| > 2 {
        vertices := [];
      }
    }

    /**
     * `exportMask`: refuses with fewer than three open vertices, gives up without a 2D context, and
     * otherwise downloads the stage-sized cut-out of the open polygon.
     */
    // Only whether `getContext('2d')` gives a context matters here: the cut-out image is not
    // modelled, so the context's fill is never consulted and a flag stands for it.
    method ExportMask(stageWidth: nat, stageHeight: nat, contextAvailable: bool) returns (r: MaskExport)
      ensures r == TooFewVertices <==> |vertices| < 3
      ensures r == NoContext <==> |vertices| >= 3 && !contextAvailable
      ensures r.Downloaded? ==> r == Downloaded(stageWidth, stageHeight, vertices, "mask.png")
    {
      if |vertices| < 3 {
        return TooFewVertices;
      }
      if !contextAvailable {
        return NoContext;
      }
      return Downloaded(stageWidth, stageHeight, vertices, "mask.png");
    }
  }

  /**
   * A successful close leaves nothing to export: right after a list of three or more vertices is
   * closed, any export is refused, so an export only goes ahead on a list still open.
   */
  method CloseThenExport(app: AppComponent, stageWidth: nat, stageHeight: nat, contextAvailable: bool)
    returns (r: MaskExport)
    requires |app.vertices| >= 3
    modifies app
    ensures r == TooFewVertices
  {
    app.ClosePolygon();
    r := app.ExportMask(stageWidth, stageHeight, contextAvailable);
  }
}
