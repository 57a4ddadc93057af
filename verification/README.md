# Polygon clipping by plane sweep: a verified model of `gpc_polygon_clip`

The Generic Polygon Clipper computes the difference, intersection, exclusive or or union of
two polygon sets.  It sweeps horizontal scanbeams upwards over an active edge table, classes
every edge by the occupancy of the four quadrants around it, exchanges edge bundles at
crossings, and strings output contours together until each of them closes.  This project
models the clipper from `gpc_polygon_clip` down, over exact real coordinates, and proves it
correct.

The main result is `Clipper.PolygonClip`.  For every operation and every two polygons:

* **The result is exact.**  At every height, just above and just below it, and at every x, the
  contours of the result turn exactly once around a point if the set operation holds of its
  even-odd membership in the subject and in the clip polygon, and not at all otherwise.  So
  the result has just the wanted points, by the even-odd rule and by the winding rule alike,
  and its contours run in consistent directions.
* **The `hole` flags are right.**  A contour that is no hole turns once around what is within it,
  a hole once the other way, everywhere.  So where a single contour separates an outer point from
  an inner one, it is flagged exactly if the outer point is wanted, and the inner one is not.
* **Every vertex and every closing is accounted for.**  Each vertex of the output contours, as
  often as it occurs, comes from an edge at a boundary or from a recorded crossing, as the
  occupancies around it call for; every contour is closed at such a place, as a hole exactly if the
  region just below is not part of the result.
* **The result is made of closed contours.**  Every contour has more than two vertices; every
  vertex lies on a side of the input; every side is horizontal or runs along a side of the
  input.
* **Every boundary scan is right.**  The four quadrant bits of each edge class are the set
  operation on membership in the caller's polygons, and neighbours agree on the quadrants they
  share.
* **Nothing is wanted outside the scanbeams**, so the early returns with an empty result are
  right.
* **The input polygons are left as they were**, also when both are one and the same.

## How the proof is built

Layer by layer, with the module names:

* *Vocabulary*: `Base`, `Edges`, `Polygons`, `Regions` (even-odd membership), `Membership`
  (the same read off the edge table).
* *Tables*: `Cycle`, `Sides`, `Bounds`, `Coverage` and `BuildLmt` cut contours into bounds in
  the shared array; `LocalMinima`, `ScanbeamTree` and `EdgeTable` are the tables; `Minimax`
  flags contours that cannot matter; `TableFacts` says what the tables have to do with the
  polygons.
* *Output contours*: `Output` has the contours as values and who may touch which end of
  which contour; `Conservation` and `Sums` count vertices; `Closing` says where contours are
  closed; `Results` and `ResultRegions` read off the result; `OutputNodes` has the same
  operations on linked polygon nodes and vertices and refines the values.
* *Rows*: `Strands` views the active edge table as a row of strands that toggle the parity and
  hold ends; `Bundles` and `Bundling` treat coincident edges; `ActiveTable` inserts, deletes
  and replaces edges; `AetList` does so on the doubly linked list, with the bundle swap.
* *Boundary scan*: `Boundary` has the sixteen cases, `BoundaryScan` the loop, `Quadrants` what
  the classes mean; `Repeats` shows that no vertex is repeated.
* *Scanbeam interior*: `Crossings` and `IntersectionTable` find the crossings, `Exchange` shows
  that every exchange is between neighbours, `BeamOrder` that the row is in order between
  crossings, `CrossingStep` has the crossing cases, `Corners` what they and the scan add,
  `Interior` and `ScanbeamInterior` the loop.
* *Counting sides*: `Tally` counts the sides to the left of a probe, with a sign for their
  direction, together with the rays that open ends will follow; `BoundaryTally` and
  `CrossingTally` show that no edit changes the count below its own height; `Levels` shows that
  the count is what the polygons want wherever the row is in order.
* *Contours within contours*: `Nesting` has marks in a row, two for each open contour, and numbers
  that fit them as turns fit contours lying beside or within one another; `Turning` reads the marks
  off a row of held ends and the turns off the contours, `BoundaryTurning` and `CrossingTurning`
  carry this over every edit.
* *The whole*: `SweepState` and `Sweep` carry the invariant over all scanbeams; `Requested` and
  `Clipper` put everything together.

The key reading of the code: the occupancy above the boundary is the set operation on `parity`,
the occupancy below it the set operation on `parity` toggled where `horiz` is not NH.  A left end
of a contour is held where the occupancy rises from left to right, a right end where it falls.

Edges are named by their index in the edge table, and polygon nodes by the order in which they
are made; the two passes of `build_lmt`, and everything that depends on them, are one text with a
direction as parameter.  The field `closed` of an output contour is not in the program: it records
that a merge joined the contour's own two ends.  Conditions that the program's own callers meet
are the only preconditions: the vertex counts of the polygons are those of their vertex arrays.

Where the code leaves something different from what one would expect:

* `next_h_state` distinguishes BH and TH, but the clipper only ever asks whether the state is NH.
* An insertion into the active edge table keeps it in order of `xb` and then slope, and the bounds
  of one local minimum enter in that order.  Deletion and replacement do not keep it: all that the
  sweep relies on is the order of `xb`.
* The intersection table is processed in order of height with ties in order of insertion; this
  is what makes every exchange one of neighbours, also where many edges meet in one point.

## Model

| member | source | states |
|---|---|---|
| Clipper.PolygonClip | extlibs/GPC/v2.32/gpc.c:1126-1762 | For every operation and every pair of polygons, which may be the same one: the result is exact (at every level its contours turn once around every point that the operation on membership in the inputs has and not at all around any other, and even-odd membership in it is that operation), its `hole` flags tell which contours turn once around what is within them and which once the other way, every result contour is a closed path along input sides, every boundary scan classes its edges as the inputs require, the visited heights are those of the vertices that matter, nothing is wanted outside them, every vertex and every closing of an output contour is one that the occupancies around a boundary edge or a recorded crossing call for, the result shows every output contour of more than two vertices with its flag and its vertices, and both inputs are left as they were |
| Clipper.ClipTables | extlibs/GPC/v2.32/gpc.c:1164-1180 | From finished tables to such a result, `hole` flags and the account of vertices and closings included; an empty minima table means that there are no edges and that nothing is wanted |
| Clipper.DrawnIsExact | extlibs/GPC/v2.32/gpc.c:1710-1746 | When no end is held any more and the sides drawn are those wanted, the contours that are kept turn once around the wanted points and not at all around others, even though contours of one or two vertices are dropped |
| Clipper.HolesOfResult | extlibs/GPC/v2.32/gpc.c:1721-1743 | The flags that go over to the result are right: at every level a contour turns once around a point within it if it is no hole and once the other way if it is, and the contours around a point that are no holes outnumber the holes by one if the point is wanted and by none otherwise |
| Clipper.HoleIsUnwanted | extlibs/GPC/v2.32/gpc.c:1727 | What the flag means at a contour's border: if from one point to another one contour alone changes from not turning around it to turning, the contour is a hole exactly if the first is wanted, and exactly if the second, within the contour, is not |
| Clipper.HoleAboveUnwanted | extlibs/GPC/v2.32/gpc.c:1363-1418 | A contour whose own two ends meet at a boundary becomes a hole exactly if the caller's polygons leave the region just below the boundary, left of the edge where they meet, out of the result |
| Clipper.VisitIsWanted | extlibs/GPC/v2.32/gpc.c:1276-1335 | The quadrant bits of every scanned edge are the operation on membership in the polygons as the caller gave them, although flagged contours never entered the tables |
| Clipper.ExtractIsGood | extlibs/GPC/v2.32/gpc.c:1710-1746 | Every contour of the result has more than two vertices, all on input sides, and all its sides are horizontal or run along an input side |
| Clipper.NoMinimaNoEdges | extlibs/GPC/v2.32/gpc.c:1164-1174 | Without a local minimum there is no edge at all, so returning the empty result is right |
| Clipper.TrivialResult | extlibs/GPC/v2.32/gpc.c:1142-1151 | In the trivial cases nothing is wanted anywhere, so the empty result is exact |
| Requested.WantedIsSpanned | extlibs/GPC/v2.32/gpc.c:1176-1203 | Nothing is wanted below the first scanbeam height or above the last |
| Requested.UsedIsRepaired | extlibs/GPC/v2.32/gpc.c:445-449 | Flagging and then restoring the vertex counts gives the polygons back |
| Sweep.RunSweep | extlibs/GPC/v2.32/gpc.c:1192-1708 | Over a whole run: at the end no end of any contour is held and every side lies on the input; at every level the sides drawn left of every point, counted with their direction, come to one where the set operation holds and to zero elsewhere, and every contour turns as its `hole` flag says; every boundary was classed rightly; every vertex, and every closing of a contour, is one that a boundary edge or a recorded crossing calls for |
| Sweep.ProcessBoundary | extlibs/GPC/v2.32/gpc.c:1205-1472 | One boundary hands the sweep invariant on to the inside of the scanbeam; at the last boundary the table becomes empty and nothing stays open; the vertices it adds and the contours it closes are those that its row calls for |
| Sweep.ProcessScanbeam | extlibs/GPC/v2.32/gpc.c:1474-1707 | The inside of a scanbeam hands the sweep invariant on to the next boundary; the vertices it adds and the contours it closes are those that its crossings call for |
| Sweep.InsertMinimum | extlibs/GPC/v2.32/gpc.c:1207-1218 | Inserting a minimum's bounds makes the table hold exactly the edges present at the height, without touching what is held below; the bounds enter in the order in which the minimum lists them, behind all edges that are not to the right of them, and a table in order of place and then slope stays so; the new edges have nothing below the boundary |
| Sweep.LastBoundary | extlibs/GPC/v2.32/gpc.c:1438-1472 | At the last height every edge ends: the table is empty and no end of a contour is held |
| Sweep.CursorKeepsUp | extlibs/GPC/v2.32/gpc.c:1207-1218 | The one cursor into the minima table never misses an entry on the way through the scanbeam table |
| Sweep.FirstScanbeam | extlibs/GPC/v2.32/gpc.c:1207-1218 | The minima table has an entry for the first scanbeam height, and it is the first entry |
| Sweep.BoundaryIsRight | extlibs/GPC/v2.32/gpc.c:1262-1335 | Every edge class found at a boundary is the set operation on membership read off the edge table, and neighbours agree on shared quadrants |
| SweepState.NeverEmpty | extlibs/GPC/v2.32/gpc.c:1224-1230 | At every scanbeam height some edge is present, so the dereference of the first edge is safe |
| SweepState.InsertKeepsBoundary | extlibs/GPC/v2.32/gpc.c:1207-1218 | Inserting an edge that starts here keeps the boundary invariant: contents, order, held ends, parity and what the lower row reads |
| SweepState.BundledIsReady | extlibs/GPC/v2.32/gpc.c:1223-1260 | After bundling the row is ready to be scanned: both rows leave the parity as they found it, because closed contours cross every level evenly |
| SweepState.BundledReads | extlibs/GPC/v2.32/gpc.c:1223-1257 | Left of every x, the flags of the bundled upper row toggle the parity as even-odd membership just above the boundary does |
| SweepState.KeptIsReady | extlibs/GPC/v2.32/gpc.c:1438-1472 | After deletion exactly the edges that go on remain, in order, bundled, holding the same ends |
| SweepState.LinkedIsHeaded | extlibs/GPC/v2.32/gpc.c:1239-1257 | An edge is marked as a bundle head exactly if a tail stands before it, which the search for the start of a bundle relies on |
| SweepState.NextIsReady | extlibs/GPC/v2.32/gpc.c:1673-1706 | Replacing edges by successors leaves at the next boundary exactly the edges that reach it, in order there, holding the same ends |
| SweepState.NextIdsArrive | extlibs/GPC/v2.32/gpc.c:1673-1706 | The edges handed on are exactly those present at the next height that do not start there |
| SweepState.NextReads | extlibs/GPC/v2.32/gpc.c:1673-1706 | Left of every x, the lower row at the next boundary toggles the parity as membership just below it does |
| SweepState.LiveParity | extlibs/GPC/v2.32/gpc.c:1137-1190 | The edges that go on from a height toggle each parity an even number of times, which is why `parity` never needs to be reset |
| Boundary.NextHState | extlibs/GPC/v2.32/gpc.c:234-241 | A horizontal edge is being followed afterwards exactly if the parities above and below then differ; BH and TH tell, with the parity, whether the edge that it starts from comes from below, and change places at every edge that crosses |
| Boundary.Count | extlibs/GPC/v2.32/gpc.c:1321-1333 | Counting an edge in toggles the parity above by its upper flags and the parity below, as `horiz` encodes it, by its lower flags |
| Boundary.NotContributing | extlibs/GPC/v2.32/gpc.c:1277-1335 | An edge that is passed over as not contributing has class NUL, or FUL for a union |
| Boundary.EditKeeps | extlibs/GPC/v2.32/gpc.c:1341-1433 | Every one of the sixteen cases finds the pointers it follows, keeps exactly one holder for each end of each open contour, joins only a left end with a right end, and leaves a vertex of the edge at the end that it now holds; it adds the edge's place once in EMN, IMN, ELI and IRI, once just if `xb != px` in ERI, ILI, EMX and IMX, once more than that in IMM and EMM, just if the edge begins here in LED and RED, and no other vertex |
| Boundary.EditMeets | extlibs/GPC/v2.32/gpc.c:1363-1396 | Cases EMX and IMX join the end carried along the horizontal with the edge's lower end; neither is held afterwards; the edge's place is added once if it is not `px` and not at all otherwise |
| Boundary.EditMeetsAndStarts | extlibs/GPC/v2.32/gpc.c:1397-1418 | Cases IMM and EMM join two ends and start a new contour whose two ends are held instead; the edge's place is added once for the new contour, and once more if it is not `px` |
| Boundary.EditTurnsAcross | extlibs/GPC/v2.32/gpc.c:1358-1386 | Cases ELI and IRI extend the contour to the boundary and carry its end along the horizontal |
| Boundary.EditTurnsUp | extlibs/GPC/v2.32/gpc.c:1349-1380 | Cases ERI and ILI pass the end carried along the horizontal to the edge above; the edge's place is added once if it is not `px` and not at all otherwise |
| Boundary.EditGoesOn | extlibs/GPC/v2.32/gpc.c:1419-1430 | Cases LED and RED keep the end on the edge, with a vertex just if the edge begins here |
| Boundary.ClosedAsHole | extlibs/GPC/v2.32/gpc.c:1363-1418 | A contour whose own two ends meet at a boundary becomes a hole exactly if the region below, between the two ends, is not part of the result |
| Closing.EditCloses | extlibs/GPC/v2.32/gpc.c:1363-1418 | At a boundary a contour is closed only where a horizontal meets an edge that bounds the result below; its closing vertex is the edge's place, and it becomes a hole exactly if the region below, between the two, is not part of the result; closed contours never change |
| Boundary.StepKeeps | extlibs/GPC/v2.32/gpc.c:1262-1435 | One step of the scan finds every pointer it follows and keeps ownership, whatever the edge |
| Corners.StepAdds | extlibs/GPC/v2.32/gpc.c:1262-1435 | Whatever the edge and its class, a step adds the edge's place as often as the four occupancies around it, `px` and the edge's start call for, and nothing else; `px` moves on to the edge exactly if it bounds the result |
| Repeats.EditDiffers | extlibs/GPC/v2.32/gpc.c:1341-1433 | No edit puts a vertex beside an equal one, if the ends held below lie strictly below the boundary |
| BoundaryScan.ScanBoundary | extlibs/GPC/v2.32/gpc.c:1259-1436 | A whole scan turns the ends held below into the ends held above, sets the bundle sides, ends with `cf` null and `parity` back at its initial value, classes every edge by the parities on both sides of it, and leaves everything below the boundary as drawn; the vertices added are the sum of what the occupancies around the edges call for, contours are closed only where these say so, and if all held ends lie strictly below and no contour has two equal neighbouring vertices, none has afterwards |
| BoundaryScan.ScanMeetsAt | extlibs/GPC/v2.32/gpc.c:1363-1418 | Where a scan may close a contour: at an edge where a horizontal comes in and that bounds the result below, as a hole exactly if the region below, left of the edge, is not part of the result |
| BoundaryScan.RowStepTallied | extlibs/GPC/v2.32/gpc.c:1262-1435 | A step of the scan changes nothing of what is drawn below the boundary |
| BoundaryTally.EditTallied | extlibs/GPC/v2.32/gpc.c:1341-1433 | Whatever its class, an edit keeps at every level below the boundary the signed count of sides and rays to the left of every point |
| BoundaryTurning.EditTurned | extlibs/GPC/v2.32/gpc.c:1341-1433 | Whatever its class, an edit keeps contours beside or within one another below the boundary: how often each turns around a probe still fits the places of its held ends, and closed contours turn as their `hole` flag says |
| Quadrants.ScanIsRight | extlibs/GPC/v2.32/gpc.c:1276-1335 | If the two rows read membership, every class that the scan finds has the four quadrants that the set operation requires |
| Quadrants.ClassHasQuadrants | extlibs/GPC/v2.32/gpc.c:118-135 | The four occupancies around an edge are the binary digits of the number of its class, and each class stands for its own four |
| Membership.ReadingIsSetOperation | extlibs/GPC/v2.32/gpc.c:1188-1190 | The occupancy computed from the parities, with the clip parity inverted for a difference, is the requested set operation |
| Bundling.CreateBundles | extlibs/GPC/v2.32/gpc.c:1223-1257 | Neighbouring live edges are bundled exactly if they coincide; tails have no flags, every head toggles as much as all the edges of its bundle, and an edge is marked as head or tail exactly by its neighbours |
| Bundling.BalancedParity | extlibs/GPC/v2.32/gpc.c:1239-1257 | Bundling by exclusive or conserves the parity that the live edges toggle |
| ActiveTable.AddEdgeToAet | extlibs/GPC/v2.32/gpc.c:572-618 | An edge goes behind every edge at a smaller `xb`, or at the same `xb` and of smaller or equal slope, and before the first one that is neither; a table in order of `xb` and then slope stays so |
| ActiveTable.LeftToRightAbove | extlibs/GPC/v2.32/gpc.c:594-611 | What that order is for: of two edges that start at one point, the earlier is at every height above nowhere to the right of the later, and strictly to its left unless they coincide |
| ActiveTable.DeleteTerminating | extlibs/GPC/v2.32/gpc.c:1438-1472 | Exactly the edges that end at yb are deleted; the others get their place at yt and keep everything above the boundary; below it, what one edge after the other does to the row |
| ActiveTable.RetainedIsLive | extlibs/GPC/v2.32/gpc.c:1438-1472 | What is left, edge after edge, are the live edges with everything they have above the boundary |
| ActiveTable.HeadHandsDown | extlibs/GPC/v2.32/gpc.c:1452-1463 | The tail next to a deleted bundle head gets the head's lower pointer and becomes the head if another tail precedes it, otherwise unbundled; next to any other deleted edge nothing changes |
| ActiveTable.PrepareNext | extlibs/GPC/v2.32/gpc.c:1673-1706 | An edge that ends and has a successor is replaced by it, at its bottom, any other moves up to where it arrives; pointer, bundle state and flags above become those below, and no output is left above |
| Crossings.InvertedCross | extlibs/GPC/v2.32/gpc.c:672-697 | A pair that is inverted inside the scanbeam passes all three tests, and its ratio lies in [0, 1) |
| Crossings.CrossOnBoth | extlibs/GPC/v2.32/gpc.c:692-694 | The computed point lies on both edges |
| Crossings.CrossingsOfThree | extlibs/GPC/v2.32/gpc.c:621-653 | Of three edges that all cross, the outer two cross between the other crossings, in table order |
| IntersectionTable.AddIntersection | extlibs/GPC/v2.32/gpc.c:621-653 | A record is inserted before the first that is strictly higher, so ties keep insertion order |
| IntersectionTable.AddStEdge | extlibs/GPC/v2.32/gpc.c:656-703 | An edge records a crossing with exactly the earlier edges that it ends up to the left of; the sorted table stays in descending order at the top |
| IntersectionTable.BuildIntersectionTable | extlibs/GPC/v2.32/gpc.c:706-730 | The table has exactly one record for each inverted pair, with its point, in ascending order |
| Exchange.Adjacent | extlibs/GPC/v2.32/gpc.c:1481-1484 | When its turn comes, every crossing is between two edges that are neighbours at that moment |
| Exchange.NoneBetween | extlibs/GPC/v2.32/gpc.c:1481-1671 | No third edge can stand between the two edges of the crossing whose turn it is, even if crossings share a height |
| Exchange.SwapArranges | extlibs/GPC/v2.32/gpc.c:1635-1670 | The exchange leaves the order that the next crossing relies on |
| Exchange.OrderedAtTop | extlibs/GPC/v2.32/gpc.c:1480-1671 | After the last crossing the edges stand in order at the top |
| BeamOrder.RowSortedAt | extlibs/GPC/v2.32/gpc.c:1480-1671 | At every height between two consecutive crossings the edges stand in order |
| CrossingStep.InFlagsIsLowerParity | extlibs/GPC/v2.32/gpc.c:1495-1502 | `in[]` is the parity of the region below the crossing |
| CrossingStep.GuardsHold | extlibs/GPC/v2.32/gpc.c:1548-1619 | The tests of p and q in the crossing cases never fail |
| CrossingStep.CrossEditKeeps | extlibs/GPC/v2.32/gpc.c:1541-1622 | Every crossing case keeps exactly one holder for each end of each open contour and leaves the crossing point at the ends held; it adds the crossing point twice in IMM and EMM, once in EMN, IMN, ERI, ILI, ELI, IRI, EMX and IMX, not at all otherwise, and no other vertex |
| CrossingStep.ClosedAsHole | extlibs/GPC/v2.32/gpc.c:1563-1622 | A contour whose own two ends meet at a crossing becomes a hole exactly if the region below the crossing is not part of the result |
| Closing.CrossCloses | extlibs/GPC/v2.32/gpc.c:1563-1622 | At a crossing a contour is closed only where both edges bound the region below; its closing vertex is the crossing, and it becomes a hole exactly if that region is not part of the result; closed contours never change |
| CrossingStep.CrossKeeps | extlibs/GPC/v2.32/gpc.c:1486-1633 | A crossing finds its pointers, keeps ownership, and toggles the bundle sides to the parity left of each edge in the new order |
| CrossingStep.CrossRow | extlibs/GPC/v2.32/gpc.c:1486-1670 | Crossing two neighbours keeps the whole row held and sided, and its parity |
| Corners.CrossRowAdds | extlibs/GPC/v2.32/gpc.c:1486-1633 | Crossing two neighbours of a row adds the crossing point as often as the four regions around it, read off the row's parity, call for |
| CrossingTally.CrossRowTallied | extlibs/GPC/v2.32/gpc.c:1541-1622 | A crossing changes nothing of what is drawn below it |
| CrossingTurning.CrossRowTurned | extlibs/GPC/v2.32/gpc.c:1486-1670 | Crossing two neighbours keeps contours beside or within one another below the crossing |
| ScanbeamInterior.ProcessInterior | extlibs/GPC/v2.32/gpc.c:1478-1671 | Working off the table in order exchanges neighbouring bundles only, ends with the row in order at the top and all ends held, and draws exactly what is wanted inside the scanbeam; the table has one record for each inverted pair, the vertices added are the sum of what the regions around the crossings call for, and contours are closed only where these say so |
| ScanbeamInterior.DrawOn | extlibs/GPC/v2.32/gpc.c:1480-1671 | From one crossing to the next, what the row will draw is what the set operation wants at every level in between |
| Interior.WorkStep | extlibs/GPC/v2.32/gpc.c:1481-1671 | Taking one record keeps the state of the interior: bundles whole, order as recorded, ends held |
| Interior.SelectionIsHeads | extlibs/GPC/v2.32/gpc.c:716-721 | The edges that take part in the intersection table are exactly the bundle heads and the edges on their own |
| Interior.SplitBalanced | extlibs/GPC/v2.32/gpc.c:1481-1671 | At any height the flags left of a gap toggle the parity as the edges left of it do: no gap splits a bundle |
| Levels.CountAtLevel | extlibs/GPC/v2.32/gpc.c:1481-1671 | At a level where the row is in order, the signed count of rays left of a point is one where the row's parity says inside and zero elsewhere |
| Levels.PlanarAtLevel | extlibs/GPC/v2.32/gpc.c:1481-1671 | At a level where the row is in order, above all vertices so far, the open contours lie in one another as their ends stand in the row |
| Nesting.ClosedNested | extlibs/GPC/v2.32/gpc.c:783-851 | If open contours lie beside or within one another, two neighbouring ends of one contour can be joined: the closed contour turns around the probe as a hole or not at all if the joining sides are a hole's, and as an outer contour or not at all otherwise; the others still lie beside or within one another |
| Nesting.JoinedNested | extlibs/GPC/v2.32/gpc.c:783-851 | Joining two contours at neighbouring ends leaves all of them beside or within one another, the new one turning as often as the two together |
| Turning.EndsMeet | extlibs/GPC/v2.32/gpc.c:783-851 | On output contours: joining two neighbouring ends that meet in a point, be they of one contour or of two, keeps open contours beside or within one another and closed ones turning as their `hole` flag says |
| Turning.RowIsPlanar | extlibs/GPC/v2.32/gpc.c:1481-1671 | From one level to the next above it: what a contour turns around a probe above all its vertices is decided by which of its ends stand left of the probe |
| Levels.UnitsAtLevel | extlibs/GPC/v2.32/gpc.c:1481-1671 | Left of a probe inside a scanbeam, the edges of the table toggle the parity as the sides of the polygons do |
| Output.AddKeepsOwned | extlibs/GPC/v2.32/gpc.c:766-780 | A vertex added at a held end keeps one holder for every end of every open contour and moves no other end |
| Output.AddLocalMinKeepsOwned | extlibs/GPC/v2.32/gpc.c:854-881 | A new contour has its two ends held, both at its one vertex |
| Output.MergeNodes | extlibs/GPC/v2.32/gpc.c:783-851 | A merge redirects every node of p's contour to q's representative, sets `hole` by the kind of merge, keeps `proxy` idempotent and nodes active exactly if they are their own proxy, and closes the contour exactly if both ends were its own |
| Output.MergeKeepsOwned | extlibs/GPC/v2.32/gpc.c:783-851 | After a merge the two joined ends are held by nobody and every other end of every open contour by exactly one pointer |
| Output.MergeKeepsTraced | extlibs/GPC/v2.32/gpc.c:783-851 | A merge of ends at the same point or the same height leaves every contour's sides on input sides or horizontal |
| Conservation.AddConserves | extlibs/GPC/v2.32/gpc.c:766-825 | Adding a vertex adds exactly that vertex to the vertices of all contours |
| Conservation.AddLocalMinConserves | extlibs/GPC/v2.32/gpc.c:854-881 | A new contour adds exactly its one vertex |
| Conservation.MergeConserves | extlibs/GPC/v2.32/gpc.c:783-851 | A merge conserves the vertices |
| Conservation.MeetAdds | extlibs/GPC/v2.32/gpc.c:783-851 | Joining two ends, one of which may first move on to a point, and perhaps starting a contour there, adds that point once for each of the two and nothing else |
| Conservation.ExtractConserves | extlibs/GPC/v2.32/gpc.c:732-763 | The result has every vertex of every contour that is not dropped as too short |
| Tally.AddHits | extlibs/GPC/v2.32/gpc.c:766-825 | Adding a vertex adds exactly the side that leads to it |
| Tally.JoinHits | extlibs/GPC/v2.32/gpc.c:783-851 | A merge adds exactly the side between the two ends |
| Results.ExtractPlaces | extlibs/GPC/v2.32/gpc.c:732-763 | The result has one contour for each representative with more than two vertices, and a contour comes after those of all newer nodes |
| Results.ExtractShows | extlibs/GPC/v2.32/gpc.c:1710-1746 | Every representative with more than two vertices is shown in the result at its own place, with its flag and with its vertices in reverse order, and the result has no other contours |
| Results.AllClosed | extlibs/GPC/v2.32/gpc.c:1710-1746 | When no end is held, every representative was closed by a merge of its own two ends, which fixed `hole` |
| Results.ResultIsTraced | extlibs/GPC/v2.32/gpc.c:1721-1743 | Every result contour is a closed path along the input |
| ResultRegions.ResultTurns | extlibs/GPC/v2.32/gpc.c:1710-1746 | How often the result turns around a point is the signed count of the sides drawn, whatever is dropped and although the order is reversed |
| ResultRegions.TurnsAreSurrounding | extlibs/GPC/v2.32/gpc.c:1727 | If contours turn as their flags say, the turns of a result are the contours around the point that are no holes less the holes around it |
| ResultRegions.TurnsParity | extlibs/GPC/v2.32/gpc.c:1710-1746 | Even-odd membership in the result is the parity of its turns |
| OutputNodes.OutputList.AddLeft | extlibs/GPC/v2.32/gpc.c:766-780 | On linked nodes: refines the prepend on values; every other list and all links stay well formed |
| OutputNodes.OutputList.AddRight | extlibs/GPC/v2.32/gpc.c:810-825 | On linked nodes: refines the append on values |
| OutputNodes.OutputList.MergeLeft | extlibs/GPC/v2.32/gpc.c:783-807 | On linked nodes: refines the concatenation p + q and the redirection of all proxies |
| OutputNodes.OutputList.MergeRight | extlibs/GPC/v2.32/gpc.c:828-851 | On linked nodes: refines the concatenation q + p and the redirection of all proxies |
| OutputNodes.OutputList.AddLocalMin | extlibs/GPC/v2.32/gpc.c:854-881 | On linked nodes: refines the start of a contour; the new node heads the list |
| OutputNodes.OutputList.Redirect | extlibs/GPC/v2.32/gpc.c:796-805 | The loop over the node list redirects exactly the nodes whose proxy is the target |
| OutputNodes.OutputList.CountContours | extlibs/GPC/v2.32/gpc.c:732-763 | Counts the contours with more than two vertices and leaves in each node the number of vertices it contributes |
| OutputNodes.OutputList.ReadVertices | extlibs/GPC/v2.32/gpc.c:1729-1741 | The vertex array is filled exactly, down to index 0, with the node's vertices from right to left |
| OutputNodes.OutputList.GenerateResult | extlibs/GPC/v2.32/gpc.c:1710-1746 | Yields exactly the contours of the value-level result, in its order, as many as were counted |
| AetList.Aet.AddEdge | extlibs/GPC/v2.32/gpc.c:572-618 | The node is linked in at the value-level place: behind all nodes that are not to the right of it by `xb` and then slope, and before one that is; a list in that order stays so and stays doubly linked |
| AetList.Aet.Delete | extlibs/GPC/v2.32/gpc.c:1443-1450 | The node is taken out; the list stays doubly linked |
| AetList.Aet.DeleteTerminating | extlibs/GPC/v2.32/gpc.c:1438-1472 | The walk along the list leaves the nodes of the value-level row, bundle heads handing down included |
| AetList.Aet.Replace | extlibs/GPC/v2.32/gpc.c:1686-1694 | The successor takes the node's place; the list stays doubly linked |
| AetList.Aet.PrepareNext | extlibs/GPC/v2.32/gpc.c:1676-1705 | The walk along the list makes it that of the next boundary: every node holds the value-level edge, at the node that belongs to it |
| AetList.RowOwnsPlaces | extlibs/GPC/v2.32/gpc.c:1676-1705 | In the sweep, no successor's node is in the list already, and no two edges have the same successor |
| AetList.Aet.BeforeBundle | extlibs/GPC/v2.32/gpc.c:1641-1655 | The search finds the node before the bundle, or none at the front of the list |
| AetList.Aet.SwapBundles | extlibs/GPC/v2.32/gpc.c:1635-1670 | The list A, block of e0, block of e1, B becomes A, block of e1, block of e0, B, also at the front, and stays doubly linked |
| AetList.Aet.CrossBundles | extlibs/GPC/v2.32/gpc.c:1624-1670 | Setting the sides and pointers of two neighbouring heads and exchanging their bundles refines the exchange on rows of bundles |
| Cycle.ClimbSteps | extlibs/GPC/v2.32/gpc.c:473-480 | A climb goes from neighbour to neighbour, strictly upwards, and stops at a local maximum |
| Cycle.RootClimbs | extlibs/GPC/v2.32/gpc.c:468-531 | Every rising side belongs to the climb from the local minimum below it |
| BuildLmt.BuildLmt | extlibs/GPC/v2.32/gpc.c:428-569 | Every side that is not horizontal, of every contour that is not flagged, becomes exactly one edge; the tables stay chained, sorted and in step; the heights of the kept vertices and no others are recorded; all counts are restored |
| BuildLmt.BuildContour | extlibs/GPC/v2.32/gpc.c:452-566 | One contour adds exactly its sides, and at most as many edges as it keeps vertices |
| BuildLmt.BuildPass | extlibs/GPC/v2.32/gpc.c:467-565 | One pass cuts a bound at every local minimum of its direction and passes over everything else |
| BuildLmt.BuildBound | extlibs/GPC/v2.32/gpc.c:473-513 | A bound is written into the array that still holds the contour's vertices, without disturbing them or earlier edges, and entered in the minima table |
| BuildLmt.CountEdges | extlibs/GPC/v2.32/gpc.c:473-480 | The climbing loop ends, and counts the edges of the bound |
| BuildLmt.FillBound | extlibs/GPC/v2.32/gpc.c:482-512 | The edges filled in are the bound's, linked by `pred` and `succ`, and nothing else of the array changes |
| BuildLmt.OptimiseContour | extlibs/GPC/v2.32/gpc.c:452-465 | Exactly the optimal vertices are copied, in order, and exactly their heights recorded |
| BuildLmt.CountOptimalVertices | extlibs/GPC/v2.32/gpc.c:412-425 | Counts the vertices that are kept, none for a flagged contour |
| BuildLmt.RoomForBound | extlibs/GPC/v2.32/gpc.c:436-441 | There is always room for the next bound: the edges never outnumber the optimal vertices |
| Coverage.CutBound | extlibs/GPC/v2.32/gpc.c:467-565 | Cutting a bound uses only sides that no earlier bound used |
| BuildLmt.CutIsWhole | extlibs/GPC/v2.32/gpc.c:467-565 | After both passes the contour's sides that are not horizontal are in the table, each exactly once |
| Sides.OptimisationKeepsSides | extlibs/GPC/v2.32/gpc.c:80-81 | Dropping the vertices that are not optimal keeps every side that is not horizontal, in order |
| Sides.OptimalIsEnd | extlibs/GPC/v2.32/gpc.c:80-81 | A vertex is kept exactly if it is an end of a side that is not horizontal |
| Sides.KeptHasMinimum | extlibs/GPC/v2.32/gpc.c:80-87 | A contour that keeps any vertex has, in both directions, a local minimum at its lowest height |
| Sides.CrossedEvenly | extlibs/GPC/v2.32/gpc.c:80-81 | A closed contour crosses every level an even number of times |
| Bounds.AppendBuilt | extlibs/GPC/v2.32/gpc.c:513-563 | Entering a bound keeps the edge table chained and the minima table in step with it |
| Bounds.BoundIsLinked | extlibs/GPC/v2.32/gpc.c:482-512 | An edge of a bound runs upwards between two neighbouring vertices; it has a successor exactly if the contour climbs on, and a predecessor exactly if it is not the first |
| Bounds.BuiltIsMinima | extlibs/GPC/v2.32/gpc.c:279-357 | The finished minima table has, in order of height, every edge that starts a bound exactly once, and the bounds of a minimum in order of place and then slope |
| LocalMinima.InsertBound | extlibs/GPC/v2.32/gpc.c:279-323 | A bound is inserted behind all bounds at a smaller x, or at the same x and of smaller or equal slope, and before one that is neither; the list stays sorted by starting point and slope |
| LocalMinima.BoundList | extlibs/GPC/v2.32/gpc.c:326-357 | The entry for a height is found, or made in its place; the table stays strictly increasing |
| LocalMinima.AddBound | extlibs/GPC/v2.32/gpc.c:279-357 | A bound is added to the entry of its height and to no other; all stays sorted |
| ScanbeamTree.AddKeepsOrder | extlibs/GPC/v2.32/gpc.c:360-387 | A height is added to the search tree unless it is there, and the count grows just then |
| ScanbeamTree.BuildSbt | extlibs/GPC/v2.32/gpc.c:390-398 | The array part is filled exactly with the tree's heights, strictly increasing |
| ScanbeamTree.ScanbeamTable | extlibs/GPC/v2.32/gpc.c:1176-1180 | The scanbeam table lists the distinct recorded heights in increasing order, as many as were counted |
| TableFacts.TableIsEven | extlibs/GPC/v2.32/gpc.c:428-569 | In the finished table every height is crossed an even number of times by each polygon |
| TableFacts.HeightsOfTable | extlibs/GPC/v2.32/gpc.c:1176-1180 | The recorded heights are exactly the heights of the edges' ends |
| TableFacts.MembershipIsMember | extlibs/GPC/v2.32/gpc.c:428-569 | Membership read off the edge table is even-odd membership in the polygons put into it |
| Minimax.MinimaxTest | extlibs/GPC/v2.32/gpc.c:962-1012 | Exactly the contours are flagged that lie apart from every contour of the other polygon, that is, for coordinates at finite doubles, with all vertices strictly left of, right of, above or below all of the other's; subject contours only for an intersection; also if both polygons are one |
| Minimax.MinimaxIsSound | extlibs/GPC/v2.32/gpc.c:929-1012 | For INT and DIFF, flagging changes the wanted result at no point, even if contours of both polygons are flagged |
| Minimax.CreateContourBboxes | extlibs/GPC/v2.32/gpc.c:929-959 | Every box is that of its contour: around all vertices, and, if there are any and they are at finite doubles, with each bound the coordinate of some vertex |
| Minimax.BoxHolds | extlibs/GPC/v2.32/gpc.c:929-959 | A contour's vertices all lie in its box |
| Minimax.BoxIsTight | extlibs/GPC/v2.32/gpc.c:929-959 | Each bound of the box of a contour that has vertices, all at finite doubles, is the coordinate of one of them |
| Minimax.BoxesApart | extlibs/GPC/v2.32/gpc.c:962-980 | Two boxes overlap exactly if the contours do not lie apart, said of the vertices themselves |
| Minimax.ApartIsPlain | extlibs/GPC/v2.32/gpc.c:962-980 | For contours with vertices at finite doubles, being apart is a matter of comparing each vertex of the one with each of the other |
| Minimax.FillOverlapTable | extlibs/GPC/v2.32/gpc.c:970-980 | The table has the overlap of every pair of contours, each in a place of its own |
| Minimax.FlaggedBySelf | extlibs/GPC/v2.32/gpc.c:962-1012 | A polygon compared with itself is not flagged |
| Regions.MemberInBox | extlibs/GPC/v2.32/gpc.c:962-1012 | A contour has points only inside a box around its vertices |

## Left out

- Floating-point rounding: coordinates are exact reals, and `DBL_EPSILON` and the merge tolerance of `gpc_set_epsilon` are 0, so bundling is exact coincidence.
- Sweep.RunSweep: works on rows and stores as values rather than on the linked nodes.  `OutputNodes` refines every operation on output contours, and `AetList` the insertion, deletion, replacement and bundle exchange of the active edge table; the sweep does not call them, bundling and the boundary scan have no linked form, and an edge node's output pointers are node numbers.
- ScanbeamTree.AddKeepsOrder: the search tree is a value that is rebuilt along the path instead of being updated through a pointer.
- IntersectionTable.BuildIntersectionTable: the intersection table, the sorted edge table and the minima table are sequences instead of linked nodes, and the recursive inserters are loops over them; bundles are named by their place at the bottom of the scanbeam.
- BuildLmt.BuildLmt: an element of the shared array holds the vertex, kind, ends, slope, `pred` and `succ`; the other edge fields that `build_lmt` initialises are set when the edge enters the active edge table, which is before anything reads them.
- Clipper.HolesOfResult: a contour that turns around no point at all (one that runs back along itself) has no inside by which its `hole` flag could be judged; only `Clipper.AccountedFor` speaks of it, by the place where it was closed.
- Clipper.HoleAboveUnwanted: is about contours closed at a boundary; for those closed at a crossing, `Clipper.AccountedFor` gives the region below by the parities that the recorded order of crossings yields.
- Simplicity of the result's contours, and whether a crossing repeats a vertex where several edges cross in one point.
- `result` being the same object as an input, and freeing, allocation failure and `exit`.
- `gpc_tristrip_clip` and its helpers: the same sweep with other output actions.
- `gpc_read_polygon`, `gpc_write_polygon`, `gpc_add_contour`, `gpc_free_polygon`, `gpc_set_epsilon`: input, output and copying.
- The rest of the repository (decoders, byte swapping, network clients).
