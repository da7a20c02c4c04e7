# Polygon masking: capture state machine and mask buffers

A Dafny model of the logic inside a small Angular/Konva image-masking app. The user clicks vertices on
a canvas over a background image. The polygon closes on a click near its first vertex or on the `n`
key. Finished polygons are collected, and on export each one becomes a 200-by-200 binary mask.

The model has four modules, plus `wrappers.dfy` for the `Option` and `Result` values:

- `geometry.dfy` (`Geometry`) holds canvas points and the "near the first vertex" test. Two
  components share it.
- `mask_service.dfy` (`MaskService`) covers `MaskService.generateMaskData`, `visualizeMask` and
  `processMask`. `GenerateMaskData` and `VisualizeMask` are loops over arrays with loop
  invariants. `ProcessMask` has no loop of its own: it runs the first and then the second.
  - The browser's polygon fill is a `FillOracle` carried by a `Context2D`. It is a total function
    from the vertex list and the canvas size to the `4 * width * height` RGBA bytes that
    `getImageData` reads back.
  - A canvas without a 2D context is `None`.
- `polygon_component.dfy` (`PolygonCapture`) models `PolygonComponent` as a class with the three
  fields `currentVertices`, `allPolygons` and `polygons`.
  - The constructor and the handlers `OnPointer`, `OnKeyDown`, `ClosePolygon` and `ResetPolygons`
    are proved to follow `Initial`, `Clicked`, `KeyPressed`, `Closed` and `Initial` on the value
    `Capture`, and to keep the invariant `Valid()`.
  - `DrawPolygon` is the half-step inside `ClosePolygon`. It pushes onto `polygons` only, so the
    invariant does not hold again until `ClosePolygon` pushes onto `allPolygons`.
  - The invariants are proved about those functions, including over any sequence of events (`Run`).
  - `ExportMask` builds the labelled mask entries in a loop over the finished polygons.
- `legacy_app.dfy` (`LegacyCapture`) models the older `AppComponent` of `src/app/chck.ts`. It has a
  single vertex list and its own close and export rules.

Errors that the source throws become `Result` values: a missing 2D context, reading
`vertices[0]` on an empty list, and reading or creating image data of zero width or height. So do
the source's early returns: nothing to export, too few vertices, no context.

Some facts about the code that shape the model:

- The fill uses the canvas default rule (nonzero), and the model leaves it to the oracle.
- `generateMaskData` has no check for polygons of fewer than three vertices. Of the vertex lists,
  it fails only on an empty one.
- Export is per polygon only. There is no combined mask of all polygons.
- In `chck.ts`, closing a list of two or fewer vertices keeps the list.

## Model

| member | source | states |
|---|---|---|
| Geometry.WithinCloseRadiusIsDistanceTest | src/components/konva-custom-polygon/custom-polygon/polygon.component.ts:67-71 | the squared-distance test used by `PolygonCapture.PolygonComponent.IsNearFirstVertex` and `LegacyCapture.AppComponent.IsNearFirstVertex` holds exactly when the Euclidean distance to the first vertex is strictly below 10 |
| Geometry.BoundaryIsOutside | src/app/chck.ts:63-67 | every point at distance exactly 10 from the first vertex is not near it, so the threshold is strict |
| PolygonCapture.BoundaryClickAppends | src/components/konva-custom-polygon/custom-polygon/polygon.component.ts:48-51 | a click at distance exactly 10 from the first vertex of a non-empty buffer is appended and changes nothing else |
| LegacyCapture.BoundaryClickAppends | src/app/chck.ts:41-45 | a click at distance exactly 10 from the first vertex is appended to the list |
| MaskService.GenerateMaskData | src/services/mask.service.ts:12-45 | no context gives ContextUnavailable, then an empty vertex list gives EmptyVertexList, then a zero width or height gives ZeroSizeCanvas; otherwise the buffer has length width*height, every entry is 0 or 1, and entry i is 1 exactly when canvas alpha byte 4i+3 is non-zero |
| MaskService.MaskIsRowMajor | src/services/mask.service.ts:35-42 | for every canvas pixel (x, y), mask entry y*width+x exists and is 1 exactly when that pixel's alpha is non-zero |
| MaskService.VisualizeMask | src/services/mask.service.ts:48-66 | no context gives ContextUnavailable, then a zero width or height gives ZeroSizeCanvas; otherwise the image has 4*width*height bytes, with R=G=B=clamp(mask[i]*255) and A=255 for each mask pixel and transparent black beyond the mask |
| MaskService.RedChannelRoundTrip | src/services/mask.service.ts:57-63 | for a 0/1 mask, the red byte of each displayed pixel divided by 255 gives the mask entry back, and every alpha byte is 255 |
| MaskService.EncodedIsBlackOrWhite | src/services/mask.service.ts:58-61 | every colour byte of a displayed mask is 0 or 255, because of clamping |
| MaskService.ProcessMask | src/services/mask.service.ts:69-73 | the errors of generating the mask on the first canvas, then a missing context on the display canvas gives ContextUnavailable; otherwise it returns the generated mask unchanged, since displaying only reads it |
| PolygonCapture.ClickedEffect | src/components/konva-custom-polygon/custom-polygon/polygon.component.ts:45-56 | a click near the first vertex of a non-empty buffer closes; any other click appends the point at the end of the buffer and leaves both polygon lists unchanged |
| PolygonCapture.ClosedEffect | src/components/konva-custom-polygon/custom-polygon/polygon.component.ts:124-129 | closing always empties the buffer; with more than 2 vertices it appends the buffer once to allPolygons and once to polygons; otherwise both lists are unchanged |
| PolygonCapture.ClosedConsistent | src/components/konva-custom-polygon/custom-polygon/polygon.component.ts:93-108 | closing keeps the invariant: the lists have equal length, polygons[i].vertices == allPolygons[i], and every entry has at least 3 vertices |
| PolygonCapture.StepConsistent | src/components/konva-custom-polygon/custom-polygon/polygon.component.ts:45-62 | every click, key press and reset keeps that invariant |
| PolygonCapture.RunConsistent | src/components/konva-custom-polygon/custom-polygon/polygon.component.ts:45-62 | any sequence of events, handled at these lines and by the close and reset methods at lines 124-145, from a consistent state ends in a consistent state |
| PolygonCapture.StepClear | src/components/konva-custom-polygon/custom-polygon/polygon.component.ts:48-51 | no event ever puts a vertex after the first inside the first vertex's closing radius, in the buffer or in a finished polygon |
| PolygonCapture.RunClear | src/components/konva-custom-polygon/custom-polygon/polygon.component.ts:44-62 | the same holds after any sequence of events |
| PolygonCapture.RunExtendsPolygons | src/components/konva-custom-polygon/custom-polygon/polygon.component.ts:105-127 | without a reset, both finished-polygon lists only grow: the earlier lists are prefixes of the later ones |
| PolygonCapture.ResetForgetsHistory | src/components/konva-custom-polygon/custom-polygon/polygon.component.ts:140-145 | whatever happened before a reset, the state afterwards is the same as starting from the empty state |
| PolygonCapture.FourClicksThenNearClickClose | src/components/konva-custom-polygon/custom-polygon/polygon.component.ts:48-51 | from the empty state, any four clicks whose last three lie on or outside the closing circle of the first, followed by any click inside it, give exactly one finished polygon holding those four vertices in order and an empty buffer |
| PolygonCapture.SquareClosedByNearClick | src/components/konva-custom-polygon/custom-polygon/polygon.component.ts:48-51 | the axis-aligned square of side 10 with corner (x, y), clicked in the order (x, y), (x+10, y), (x+10, y+10), (x, y+10), then a click at (x+2, y+2), about 2.83 from the first corner, gives exactly one finished polygon with those four corners in order |
| PolygonCapture.LabelInjective | src/components/konva-custom-polygon/custom-polygon/polygon.component.ts:170 | distinct polygon indices give distinct `polygon<n>Mask` keys |
| PolygonCapture.DecimalInjective | src/components/konva-custom-polygon/custom-polygon/polygon.component.ts:170 | distinct numbers print as distinct decimal numerals |
| PolygonCapture.PolygonComponent.constructor | src/components/konva-custom-polygon/custom-polygon/polygon.component.ts:16-22 | a new component has an empty buffer and no polygons, and satisfies the invariant |
| PolygonCapture.PolygonComponent.OnPointer | src/components/konva-custom-polygon/custom-polygon/polygon.component.ts:45-56 | the handler changes the fields exactly as Clicked says and keeps the invariant; no pointer position means no change |
| PolygonCapture.PolygonComponent.OnKeyDown | src/components/konva-custom-polygon/custom-polygon/polygon.component.ts:58-62 | `n` or `N` runs the same close with no proximity check; other keys change nothing |
| PolygonCapture.PolygonComponent.DrawPolygon | src/components/konva-custom-polygon/custom-polygon/polygon.component.ts:93-108 | with more than 2 buffered vertices, one entry with a copy of the buffer is pushed onto polygons; otherwise polygons is unchanged |
| PolygonCapture.PolygonComponent.ClosePolygon | src/components/konva-custom-polygon/custom-polygon/polygon.component.ts:124-138 | the fields change exactly as Closed says, and the invariant is kept |
| PolygonCapture.PolygonComponent.ResetPolygons | src/components/konva-custom-polygon/custom-polygon/polygon.component.ts:140-155 | polygons, allPolygons and currentVertices are all empty afterwards, whatever the state before |
| PolygonCapture.PolygonComponent.ExportMask | src/components/konva-custom-polygon/custom-polygon/polygon.component.ts:158-175 | with no polygons the result is NoPolygons; with either canvas context missing, the mask service's ContextUnavailable; otherwise exactly one entry per finished polygon, in order, keyed `polygon<i+1>Mask` with pairwise distinct keys, holding the 200x200 mask of allPolygons[i] |
| PolygonCapture.ResetThenExport | src/components/konva-custom-polygon/custom-polygon/polygon.component.ts:140-162 | an export right after a reset reports that there is nothing to export |
| LegacyCapture.ShortCloseIsNoOp | src/app/chck.ts:138-146 | closing 2 or fewer vertices leaves the list unchanged, so a click near the only vertex neither closes nor appends |
| LegacyCapture.FarClickAppends | src/app/chck.ts:41-45 | a click on an empty list, or one not within radius 10 of the first vertex, appends exactly that point |
| LegacyCapture.StepClear | src/app/chck.ts:38-59 | no click or key press puts a vertex after the first inside the first vertex's closing radius |
| LegacyCapture.RunClear | src/app/chck.ts:38-59 | the same holds after any sequence of clicks and key presses |
| LegacyCapture.AppComponent.constructor | src/app/chck.ts:21 | a new component has no vertices |
| LegacyCapture.AppComponent.OnClick | src/app/chck.ts:38-50 | the vertex list changes exactly as Clicked says: near the first vertex it tries to close; otherwise it appends |
| LegacyCapture.AppComponent.OnKeyDown | src/app/chck.ts:55-59 | `n` or `N` tries to close with no proximity check; other keys change nothing |
| LegacyCapture.AppComponent.ClosePolygon | src/app/chck.ts:138-146 | more than 2 vertices leaves the list empty; 2 or fewer leaves it unchanged |
| LegacyCapture.AppComponent.ExportMask | src/app/chck.ts:147-186 | fewer than 3 open vertices gives TooFewVertices, and only that case does; then no context gives NoContext; otherwise it downloads the stage-sized cut-out of exactly the open vertex list as `mask.png` |
| LegacyCapture.CloseThenExport | src/app/chck.ts:139-151 | an export right after a successful close is refused, so export only goes ahead on a list that is still open |

## Left out

- Konva rendering is not modelled because it changes no model state: vertex circles, connecting lines, the filled shape, layers, `batchDraw`, `cache`, `destroy`, `clear`, `removeChildren`, and the background image (`src/services/background-image.service.ts` is not part of this model).
- The `polygons` entries keep their vertex list only. The Konva shape handle is not modelled.
- The canvas fill is not modelled. It is a foreign call into the browser, and `FillOracle` stands for it. The model does not compute which pixels the nonzero fill covers.
- `Math.sqrt` and floating point are not modelled. Coordinates are exact reals, and the distance test compares squared values. `Geometry.WithinCloseRadiusIsDistanceTest` shows that this agrees with the exact distance test.
- Several browser calls are left out because they are I/O or event wiring: `getPointerPosition` (its result is a parameter), the `keydown` listener registration, stage sizes taken from `window`, `console.warn`/`console.log` and `alert`.
- Putting the image on a canvas is left out. `MaskService.VisualizeMask` returns the image that the source passes to `putImageData`.
- The legacy export's image bytes are not modelled. `toDataURL` and `downloadMask` are I/O, so `LegacyCapture.AppComponent.ExportMask` returns a description of the downloaded cut-out instead.
- `PolygonCapture.PolygonComponent.ExportMask` returns its entries as an ordered sequence instead of logging the dictionary it builds. Object keys that are not integers keep insertion order, so the sequence is that dictionary.
- PolygonCapture.PolygonComponent.ExportMask: every polygon's fill canvas is assumed to have the same context availability (`fillCtx`), and so is every display canvas (`displayCtx`). So a context that is missing for one polygon but present for another is not captured.
- Mask dimensions are natural numbers. The source passes plain numbers, and the only values it uses are 200 and 200.
- The Angular wiring in `src/app/app.component.ts` and `src/components/action-sidebar/action-sidebar.component.ts` holds no logic. It is not part of this model.
