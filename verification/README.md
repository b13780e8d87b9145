# Proofs for the board and design kernels

A Dafny model of the six algorithmic kernels of the repository and proofs of what they promise. Each kernel is modelled
in the form its source has: loops over arrays, buckets and queues stay loops, the grid, the placement state, the
document hook and the rail walk stay classes whose methods change their fields, and pure formulas are functions. Every
loop is proved against a reference definition that does not know its caches, its grid or its visiting order.

`dafny verify dfyconfig.toml` checks the whole project.

## What the modules cover

**Placement** (`Windows`, `Spatial`, `Courtyards`, `Turns`, `Legalizer`, `NetSums`, `Centroids`, `RotationSweep`,
`Refiner`, `Forces`, `Fit`, `Place`). The bucketed grid refines a log of entries. On it rest the claims that testing
grid neighbours only is enough: the legalizer's and the refiner's results are legal against *all* parts, the force loop
gives the all-pairs repulsion, the refiner makes the same choices as a search against every part, and the rotation
sweep's incremental sums equal recomputed ones. `Place` composes legalizing, refining and sizing into what is emitted.

**Copper currents** (`Graph`, `Kirchhoff`, `Series`, `SpanningTree`, `HandUp`, `SolveNet`, `WalkFlows`, `UnknownPads`,
`Loops`, `Distances`, `Quads`, `PadSeries`, `BuildFlow`, `ForeignPads`). The per-net solve conserves current, is the
unique conserving flow on balanced connected copper, and values every edge exactly when there is no cycle. The two
independent walks over the board follow one enumeration of quads, so that a drawn ribbon shows the current of its own
copper.

**Autosave** (`Autosave`, `AutosaveProtocol`, `AutosaveRuns`, `AutosaveSaves`). The hook's callbacks as methods of a
class, and a step relation of client, wire, server row, device store and other writers, in which a save reported failed
may still arrive. Results hold over every run between two adoptions.

**Monte-Carlo yield** (`Wilson`, `MonteCarlo`, `SettledTiers`). The score interval as roots of its quadratic, its
inversion into a run count, the five-exit sampling loop, the agreement of the stop rule with the grade, and how settled
a decided tier is. The percentile, its square and the square root are parameters of the functions; the results hold for
any positive percentile, and `Wilson.Engine95` is the source's.

**Design loop and ranking** (`Criteria`, `DesignLoop`, `Finalists`). The generate, check and fix loop against arbitrary
functions for the language model, the rule check, the simulator and the judge; the ranking as a total preorder; the
selector.

**Drivers, corners, resampling** (`Drivers`, `Corners`, `Playback`). A breadth-first walk against reachability by paths,
the enumeration of tolerance corners under 32-bit shifts, and one-pass interpolation against a search per frame.

`Reals`, `Optional`, `Sorting` and `Picking` are shared. Square roots enter as a function known by its sign and its
square.

## Where code and comments differ

The model follows the code.

- `apps/pcb-viewer/lib/flow.ts:168-170` takes more than nodes less one edges as the sign of a loop. That is right on
  connected copper only; `SolveNet.LoopTestIsRightExactlyWhen` gives the exact range in which it is wrong, and
  `Loops.LoopTestMissesDetachedTriangle` a net in that range. Lines 20-21 promise such a net no values; the solve leaves
  some edges without one and gives others of the same loop one that conservation does not force
  (`Loops.MissedLoopGetsValues`, `Loops.ForcedExactlyWhen`). Edges off the loops are right (`Loops.SolvedEdges`).
- `apps/pcb-viewer/lib/flow.ts:17-19` leaves without flow the edges that depend on an unknown pad; the code leaves the
  whole net. `UnknownPads.SettledEdgeValuelessExactlyWhen` says which edges lose a value the known pads settle, and
  `UnknownPads.SeparateTraceIsSilenced` is such a net.
- `apps/pcb-viewer/lib/flow.ts:371` carries over only a net's own pad currents, but pads are looked up by point,
  whatever the layer. On a board of two layers or more a trace may bend right under another net's surface pad on another
  layer, and that pad then counts (`ForeignPads.PadAboveBend`). Two nets' pads at one point would need parts on both
  sides of the board; on one layer either is a short. `PadSeries.OwnCurrentsExactlyWhen` is the exact condition.
- `crates/pcb-placement-rs/src/spatial.rs:35-39` calls four millions an upper bound on the cells. It is one for windows
  that want at most three millions and for no larger limit (`Windows.CapHoldsUpTo`, `Windows.CapFailsJustBeyond`); on
  the boards `place` accepts that limit is 3,956,040 (`Windows.CapHoldsOnBoards`, `Windows.CapFailsOnBoard`);
  `Windows.BucketsBounded` is the bound that always holds.
- `packages/eda-core/src/montecarlo.ts:272-282` calls a decided tier settled whatever the remaining samples say. Each of
  its three situations can be overturned (`SettledTiers.RobustCanBeRevoked`, `SettledTiers.AtRiskCanBeRevoked`,
  `SettledTiers.MarginalCanBeRevoked`); `SettledTiers` gives the exact condition for each.
- `apps/api/src/working-copy/working-copy.service.ts:56-85` updates and reads back in two statements, so the stamp it
  returns can be another writer's. An ordinary save can then replace a document this client never saw, exactly when that
  happened (`AutosaveRuns.UnseenExactlyWhenOvertaken`), and never in a run in which nobody writes in between
  (`AutosaveRuns.QuietRunsReplaceNothingUnseen`).
- After a refusal the retries of `apps/web/lib/useDocument.ts:482-497` carry the stale stamp, so that nothing lands
  until the user decides. A forced save whose connection broke can still arrive then, and nothing else can
  (`AutosaveRuns.LandsAfterRefusalExactlyWhen`, `AutosaveRuns.ForcedSaveLandsLate`).
- `packages/eda-core/src/corner.ts:113` counts corners with a 32-bit shift: from 31 cornered components on, assignments
  are missed (`Corners.EveryAssignmentCountedExactlyWhen`). The default cap of 8 keeps clear of it, and the API accepts
  at most 12 (`apps/api/src/generation/dto/index.ts:80`). Omitted components without a designator are dropped from the
  report, and the verdict can be a pass all the same (`Corners.UnnamedOmissionIsHidden`); the schema every job is
  checked against rejects such circuits (`packages/eda-core/src/schemas/circuit.schema.ts:49-54`), and for the others
  the verdict means what it says (`Corners.RunWorstCase`).
- A failed design result whose last round judged nothing shows the assertions of an earlier round's design
  (`DesignLoop.LeftOverIsEarlier`, `DesignLoop.StaleAssertions`).

## Model

| member | source | states |
|---|---|---|
| `Spatial.Grid.constructor` | `crates/pcb-placement-rs/src/spatial.rs:44-64` | a fresh grid holds nothing; its window covers both spans at the cell size given or coarsened; its buckets stay below the cap plus a term in the two sides, and within the cap when at most three millions are wanted |
| `Windows.SizeChosen` | `crates/pcb-placement-rs/src/spatial.rs:44-55` | the cells are as asked, a millionth of a millimetre at least, while four millions are enough; beyond, they grow by the root of the excess |
| `Spatial.CellHolds` | `crates/pcb-placement-rs/src/spatial.rs:74-80` | a coordinate inside the window falls into the cell that spans it |
| `Windows.BucketsBounded` | `crates/pcb-placement-rs/src/spatial.rs:50-58` | rounding each side up and adding one costs less than two cells a side; the sides themselves never take more than the cap |
| `Windows.CapHoldsUpTo` | `crates/pcb-placement-rs/src/spatial.rs:35-39` | the cap holds for every window that wants at most three quarters of it |
| `Windows.CapFailsJustBeyond` | `crates/pcb-placement-rs/src/spatial.rs:35-39` | for windows of any sides, as the grid itself accepts them, that is sharp: for any larger limit some window within it takes more buckets than the cap |
| `Windows.CapHoldsOnBoards` | `crates/pcb-placement-rs/src/spatial.rs:35-39` | on boards of 20 to 10,000 mm a side the cap holds for windows that want at most 3,956,040 |
| `Windows.CapFailsOnBoard` | `crates/pcb-placement-rs/src/spatial.rs:35-39` | sharp for those boards: for any larger limit some board within it takes more buckets than the cap |
| `Windows.CapExceeded` | `crates/pcb-placement-rs/src/spatial.rs:35-39` | cell 1 and spans 1999.505 and 499.45: nothing is coarsened, and 4001 times 1000 buckets are allocated |
| `Windows.CapHasNoMultiple` | `crates/pcb-placement-rs/src/spatial.rs:53-55` | no multiple of the cap bounds the buckets of a long, thin window, although it is coarsened |
| `Spatial.Grid.Clear` | `crates/pcb-placement-rs/src/spatial.rs:66-71` | clearing only the dirty buckets leaves a grid that holds nothing |
| `Spatial.Grid.Insert` | `crates/pcb-placement-rs/src/spatial.rs:86-100` | the grid afterwards holds exactly one entry more; every bucket holds, with multiplicity, the indices whose rectangles touch its clamped cell, and every non-empty bucket is in the dirty list |
| `Spatial.Grid.Remove` | `crates/pcb-placement-rs/src/spatial.rs:102-116` | removing a stored rectangle takes out one such entry and leaves every bucket as if it had never been inserted |
| `Spatial.Grid.Neighbors` | `crates/pcb-placement-rs/src/spatial.rs:120-134` | a query appends exactly the indices sharing a clamped cell with it, among them every stored rectangle that meets it |
| `Spatial.Grid.MeetingRectsShareCell` | `crates/pcb-placement-rs/src/spatial.rs:42-43` | rectangles that meet share a clamped cell, also outside the window and with a coarsened cell |
| `Spatial.Grid.HeldMembers` | `crates/pcb-placement-rs/src/spatial.rs:23-33` | a cell holds an index exactly when some entry of that index covers it |
| `Courtyards.OverlapMeansMeet` | `crates/pcb-placement-rs/src/placer.rs:92-99` | courtyards that overlap have meeting rectangles once each is inflated by half the spacing |
| `Courtyards.Fill` | `crates/pcb-placement-rs/src/placer.rs:387-394` | every courtyard entered in the grid at its inflated rectangle |
| `Turns.QuarterTurn` | `crates/pcb-placement-rs/src/placer.rs:62-69` | a quarter turn keeps lengths and goes counter-clockwise |
| `Turns.TurnsAddUp` | `crates/pcb-placement-rs/src/placer.rs:62-69` | the other turns are that one repeated, and four of them are none |
| `Turns.CoversItsBox` | `crates/pcb-placement-rs/src/placer.rs:72-78` | a turned part, point by point of its own rectangle, covers exactly the rectangle of the half sides in use |
| `Turns.LegalPartsClear` | `crates/pcb-placement-rs/src/placer.rs:96-99` | in a legal layout the parts themselves, as turned, are inside the margin and pairwise apart on one axis by the spacing less 1e-9 |
| `Legalizer.RingWalkIsPerimeter` | `crates/pcb-placement-rs/src/placer.rs:546-572` | the four-sided ring walk visits every cell at that distance, and each once |
| `Legalizer.Visit` | `crates/pcb-placement-rs/src/placer.rs:521-544` | a candidate cell is accepted exactly when it is in reach and overlaps no placed part, although only grid neighbours are tested |
| `Legalizer.WalkRing` | `crates/pcb-placement-rs/src/placer.rs:547-572` | a ring yields the first cell of its walk that fits, or none fits |
| `Legalizer.FindSpot` | `crates/pcb-placement-rs/src/placer.rs:574-589` | the search returns the first fitting cell of the fine rings and then of the coarse rings, or no cell of either fits |
| `Legalizer.NoSpotMeansNoFineCell` | `crates/pcb-placement-rs/src/placer.rs:574-592` | when the search fails, no grid cell within the fine radius was legal |
| `Legalizer.NoSpotMeansNoCoarseCell` | `crates/pcb-placement-rs/src/placer.rs:581-592` | nor was any coarse cell beyond the first three rings, anywhere on the board |
| `Legalizer.RingsReach` | `crates/pcb-placement-rs/src/placer.rs:501-508` | the fine rings are the fewest that reach three coarse steps; coarse rings start at the fourth and are the fewest that span the board |
| `Legalizer.CoarseStepIsNearest` | `crates/pcb-placement-rs/src/placer.rs:501-504` | the coarse step is the grid multiple nearest to the spacing, at least one cell |
| `Legalizer.WalkGoesRound` | `crates/pcb-placement-rs/src/placer.rs:546-572` | the walk starts at the corner of smallest coordinates and goes round one step at a time |
| `Legalizer.SpotIsNearest` | `crates/pcb-placement-rs/src/placer.rs:574-580` | no legal grid cell within the fine radius is nearer to the target, ring by ring, than the spot found |
| `Legalizer.TargetIsNearest` | `crates/pcb-placement-rs/src/placer.rs:510-518` | the search starts at the well-placed position nearest to the part's wish on either axis |
| `Legalizer.LargerPartsFirst` | `crates/pcb-placement-rs/src/placer.rs:480-489` | no part is placed before a larger one; parts of one area go by id, and by position where they share one |
| `Legalizer.LegalWishStays` | `crates/pcb-placement-rs/src/placer.rs:469-598` | a layout that is legal already is left as it is |
| `Legalizer.Legalize` | `crates/pcb-placement-rs/src/placer.rs:469-598` | success means every part, as turned, is inside the margin and apart from every other by the spacing less 1e-9, with every coordinate a grid multiple; each part, taken by area, sits at its own first free spot, and a failure names the first part that has none |
| `Legalizer.AreaOrderVisits` | `crates/pcb-placement-rs/src/placer.rs:480-489` | the area order visits every part once |
| `Refiner.IsClear` | `crates/pcb-placement-rs/src/placer.rs:1030-1046` | testing grid neighbours decides clearance from all other parts |
| `Refiner.StepWellPlaced` | `crates/pcb-placement-rs/src/placer.rs:1016-1025` | a clamped step from a grid position stays on the grid and inside the margin |
| `Refiner.MoveKeepsLegal` | `crates/pcb-placement-rs/src/placer.rs:926-931` | moving one part to a clear, well-placed position keeps a legal layout legal |
| `Refiner.BestStep` | `crates/pcb-placement-rs/src/placer.rs:1021-1051` | the cached, grid-tested search over the twelve steps picks what the same search against all parts and recomputed centroids picks |
| `Refiner.ChoiceIsBest` | `crates/pcb-placement-rs/src/placer.rs:1021-1051` | the choice is to stay or a clear step strictly cheaper; no clear step beats it by more than 1e-9 |
| `Refiner.StepsAreNearest` | `crates/pcb-placement-rs/src/placer.rs:1005-1009` | the steps are to the twelve nearest grid cells, each once, nearer first, then along x, then forwards |
| `Refiner.NoNearCellIsBetter` | `crates/pcb-placement-rs/src/placer.rs:1021-1051` | no legal grid cell within two of the part costs less than the choice, to within the tolerance |
| `Refiner.TurnsGoById` | `crates/pcb-placement-rs/src/placer.rs:167-172` | parts take their turns by id, and by position where they share one |
| `Refiner.RefinePass` | `crates/pcb-placement-rs/src/placer.rs:933-1063` | a pass on a legal layout leaves it legal, the parts as turned inside the margin and apart, and leaves every part where the reference pass puts it |
| `Refiner.PassImproves` | `crates/pcb-placement-rs/src/placer.rs:926-931` | over a pass every part stays or ends strictly cheaper against the snapshot |
| `Refiner.SettledPasses` | `crates/pcb-placement-rs/src/placer.rs:847-853` | stopping after a pass without moves loses nothing that further passes would do |
| `Refiner.Refine` | `crates/pcb-placement-rs/src/placer.rs:841-859` | any number of passes leaves the layout legal; it equals the reference passes, or the layout before them when the wire length got worse |
| `NetSums.OwnNetSums` | `crates/pcb-placement-rs/src/placer.rs:243-256` | a part's own sums per net, exactly the nets it has pads on |
| `NetSums.NetTotals` | `crates/pcb-placement-rs/src/placer.rs:263-276` | the cached sums equal the sums over every part's pads |
| `NetSums.TotalSplits` | `crates/pcb-placement-rs/src/placer.rs:295-302` | a net's total is the others' total plus the part's own, so the difference is the centroid of all other parts' pads |
| `NetSums.CachedCost` | `crates/pcb-placement-rs/src/placer.rs:976-1000` | the cost from the caches equals the cost recomputed from the other parts' live pads |
| `Centroids.CostIsCharged` | `crates/pcb-placement-rs/src/placer.rs:976-1000` | the cost is the sum over the part's pads of weight times distance to the mean position of the other parts' pads on the net, or nothing for a pad without net, positive weight or company |
| `Centroids.PadsTurnWithPart` | `crates/pcb-placement-rs/src/placer.rs:62-69` | pads lie as drawn on an unturned part, and each quarter turn takes them counter-clockwise about its centre |
| `RotationSweep.Recache` | `crates/pcb-placement-rs/src/placer.rs:313-327` | after the incremental update the cached sums equal those recomputed at the new rotation |
| `RotationSweep.ChoosePose` | `crates/pcb-placement-rs/src/placer.rs:283-312` | the pose chosen from the caches is the one recomputed costs choose |
| `RotationSweep.BestOfIsBest` | `crates/pcb-placement-rs/src/placer.rs:283-312` | the chosen pose is a multiple of ninety degrees and costs at most 1e-9 more than any other |
| `RotationSweep.UnturnedExactlyWhen` | `crates/pcb-placement-rs/src/placer.rs:283-312` | a part is left unturned exactly when no other pose is cheaper by more than 1e-9 |
| `RotationSweep.Sweep` | `crates/pcb-placement-rs/src/placer.rs:262-331` | the whole sweep equals the reference in which every part is scored against all other parts' current pads |
| `Forces.PairsGiveAllPairs` | `crates/pcb-placement-rs/src/placer.rs:396-431` | adding pair by pair, each unordered pair once, gives every part the all-pairs repulsion |
| `Forces.RepulsionRepels` | `crates/pcb-placement-rs/src/placer.rs:396-431` | the repulsion of a part is the sum over the others: each acts exactly when both axes overlap with the spacing, away from itself, on the axis of the smaller overlap, by half of it |
| `Forces.AttractionPulls` | `crates/pcb-placement-rs/src/placer.rs:373-385` | the attraction of a part is the sum over its springs: each draws it towards the other end, in proportion to weight and offset |
| `Forces.Repel` | `crates/pcb-placement-rs/src/placer.rs:396-431` | the grid-driven loop adds to every part exactly its all-pairs repulsion, which pushes overlapping parts apart |
| `Forces.Attract` | `crates/pcb-placement-rs/src/placer.rs:373-385` | the edge loop adds to every part exactly its attraction |
| `Forces.ForcesSumToZero` | `crates/pcb-placement-rs/src/placer.rs:373-431` | attraction and repulsion over all parts sum to zero |
| `Forces.Evaluate` | `crates/pcb-placement-rs/src/placer.rs:370-431` | one step's buffers hold, for every part, the pull of its springs and the push of every part it overlaps |
| `Fit.ShrinkToFit` | `crates/pcb-placement-rs/src/placer.rs:861-901` | every emitted, rounded courtyard is inside the emitted board's margin and the inflated part area is at most 0.45 of the usable area; the sides are the fitted ones, or both scaled to leave exactly that room and rounded up |
| `Fit.FitSideIsTight` | `crates/pcb-placement-rs/src/placer.rs:880-884` | a fitted side is at least what is needed and 20 mm, and 20 mm or less than one grid step more than needed |
| `Fit.FitsOnAxis` | `crates/pcb-placement-rs/src/placer.rs:875-884` | a re-centred, rounded courtyard stays inside the margin of any side at least the fitted one |
| `Fit.GrowthCoversArea` | `crates/pcb-placement-rs/src/placer.rs:885-890` | scaling both sides by k scales the usable area by at least k squared |
| `Fit.EmittedStaysApart` | `crates/pcb-placement-rs/src/placer.rs:86-89` | rounding a legal layout takes at most 0.01 mm, besides the 1e-9 of the legality test, off the spacing of two courtyards |
| `Fit.FineGridEmitsExactly` | `crates/pcb-placement-rs/src/placer.rs:648-657` | on a grid of whole hundredths of a millimetre rounding changes nothing: the emitted layout is the legal one, moved |
| `Fit.FineGridKeepsSpacing` | `crates/pcb-placement-rs/src/placer.rs:86-89` | on such a grid no spacing is lost |
| `Place.LegalizeGrowing` | `crates/pcb-placement-rs/src/placer.rs:679-689` | legalize on the board given and, only if that fails, once more on the larger one from what the first attempt left; the layout is legal on the board used |
| `Place.GrownByTwoFifths` | `crates/pcb-placement-rs/src/placer.rs:683-684` | the larger board has both sides two fifths longer, to the nearest grid line, up to 10,000 mm |
| `Place.PlaceFrom` | `crates/pcb-placement-rs/src/placer.rs:822-901` | from any relaxed layout: every part's own rectangle, turned and set down as emitted, is inside the margin and pairwise apart by the spacing less 0.01 mm (less 1e-9 on a grid of whole hundredths), with 0.45 of the room at most in use; and what is emitted is the legalized, refined layout, re-centred and rounded |
| `Graph.JoinedIffWalk` | `apps/pcb-viewer/lib/flow.ts:297-321` | component labels agree exactly on nodes linked by copper |
| `Graph.CycleIffTooManyEdges` | `apps/pcb-viewer/lib/flow.ts:168-170` | copper has a cycle exactly when its edges exceed nodes less components |
| `Graph.AcyclicEdgeIsBridge` | `apps/pcb-viewer/lib/flow.ts:10-15` | cutting any edge of loop-free copper separates its ends |
| `Kirchhoff.CutCarriesInjection` | `apps/pcb-viewer/lib/flow.ts:10-15` | an edge of loop-free copper carries the injections of one side of its cut |
| `Kirchhoff.ConservingFlowIsUnique` | `apps/pcb-viewer/lib/flow.ts:10-15` | loop-free copper has at most one flow conserving given injections |
| `Kirchhoff.ComponentBalances` | `apps/pcb-viewer/lib/flow.ts:10-15` | whatever a flow is, what leaves the nodes of a component sums to zero |
| `SpanningTree.BuildAdjacency` | `apps/pcb-viewer/lib/flow.ts:175-182` | each edge is listed at both of its ends, and nothing else is |
| `SpanningTree.Explore` | `apps/pcb-viewer/lib/flow.ts:200-218` | the stack walk orders one component, parents first, and records a forest |
| `SpanningTree.ValuedIffAcyclic` | `apps/pcb-viewer/lib/flow.ts:184-230` | the recorded forest takes up every edge exactly when the copper has no cycle |
| `HandUp.Accumulate` | `apps/pcb-viewer/lib/flow.ts:219-230` | the reverse pass leaves every visited non-root node with exactly its pads' current |
| `SolveNet.Solve` | `apps/pcb-viewer/lib/flow.ts:162-233` | which reason is given and when; otherwise every non-root node conserves its pads' current, a root takes its own less the component total, every edge has a value exactly when there is no cycle, and the edges with one link all that the copper links |
| `SolveNet.LoopTestDecides` | `apps/pcb-viewer/lib/flow.ts:168-170` | on connected copper the edge-count test finds exactly the copper with a cycle |
| `SolveNet.LoopTestIsRightExactlyWhen` | `apps/pcb-viewer/lib/flow.ts:168-170` | on any copper the test is right unless the edge count lies above nodes less components and at most nodes less one |
| `Loops.LoopTestMissesDetachedTriangle` | `apps/pcb-viewer/lib/flow.ts:168-170` | a triangle beside a separate trace: a cycle the test does not report |
| `Loops.ForcedExactlyWhen` | `apps/pcb-viewer/lib/flow.ts:10-21` | whatever the copper, conservation alone settles an edge's current exactly when the edge lies on no cycle |
| `Loops.SolvedEdges` | `apps/pcb-viewer/lib/flow.ts:162-233` | a solve that gives no reason values every edge off all cycles, with the one current conservation allows; for an edge on a cycle it allows others |
| `Loops.MissedLoopGetsValues` | `apps/pcb-viewer/lib/flow.ts:19-22` | one ampere across the missed triangle: two of its three edges are given values as if the third carried nothing, though no edge of it is forced |
| `SolveNet.ConnectedAccounts` | `apps/pcb-viewer/lib/flow.ts:198-231` | on connected copper only the first node's balance differs from its pads, by the total |
| `SolveNet.BalancedSolveIsTheFlow` | `apps/pcb-viewer/lib/flow.ts:162-233` | with balanced pads the solve is the one conserving flow, whatever root or order produced it |
| `UnknownPads.DeterminedExactlyWhen` | `apps/pcb-viewer/lib/flow.ts:17-19` | on loop-free copper the known pads settle an edge exactly when one side of its cut holds no unknown pad |
| `UnknownPads.FreeEdgeValuelessExactlyWhen` | `apps/pcb-viewer/lib/flow.ts:171-173` | an edge joined to no unknown pad is left without a value exactly when another component of the net holds one |
| `UnknownPads.SettledEdgeValuelessExactlyWhen` | `apps/pcb-viewer/lib/flow.ts:171-173` | an edge the known pads settle is left without a value exactly when some pad of the net is unknown and one side of its cut holds none |
| `UnknownPads.SeparateTraceIsSilenced` | `apps/pcb-viewer/lib/flow.ts:17-19` | two separate traces, an unknown pad on one: the other carries one ampere and is left without a value |
| `Distances.AssignDistances` | `apps/pcb-viewer/lib/flow.ts:332-354` | on tree copper every quad starts as far from the net's seed as the trail to its first point is long; other nets' quads keep theirs |
| `Distances.TrailDescends` | `apps/pcb-viewer/lib/flow.ts:332-354` | a trail from a seed through a spanning forest has the length recorded at its end |
| `Distances.SeedReachesEveryQuad` | `apps/pcb-viewer/lib/flow.ts:335-338` | such a trail exists to every quad |
| `Quads.DistanceZero` | `apps/pcb-viewer/lib/flow.ts:308-309` | a pair of points makes no quad exactly when it is a repeated point |
| `Quads.QuadsAreCopper` | `apps/pcb-viewer/lib/flow.ts:297-321` | the quads are, in order and each once, exactly the pairs of neighbouring points that differ, of every segment of every trace with a signal |
| `Quads.CollectEdges` | `apps/pcb-viewer/lib/flow.ts:297-321` | the solving walk lists every piece of copper of a trace with a signal, in order and each once, at its own net, points and length, under its number |
| `Quads.BuildCopperMesh` | `apps/pcb-viewer/lib/copper.ts:87-141` | the drawing walk makes one ribbon of every piece of copper of a trace with a signal, in the same order; ribbon N lies square on piece N, at its width, net, layer and row |
| `Quads.NormalIsSquare` | `apps/pcb-viewer/lib/copper.ts:101-104` | the transverse normal is a unit vector square to the quad |
| `PadSeries.SumPads` | `apps/pcb-viewer/lib/flow.ts:272-295` | each point holds the signed sum of its pads' currents, or nothing when one of them is unknown; the devices to blame are named |
| `PadSeries.ReadingMeans` | `apps/pcb-viewer/lib/flow.ts:272-291` | a pad reads its device's current, taken out of the copper at the pin it enters by and put back at the other, and nothing else |
| `PadSeries.OwnCurrentsExactlyWhen` | `apps/pcb-viewer/lib/flow.ts:371-377` | a point gives a net exactly its own pads' currents when, and only when, pads of other nets there are harmless |
| `BuildFlow.OwnPadsExactlyWhen` | `apps/pcb-viewer/lib/flow.ts:371-377` | a net is solved with its own pad currents alone exactly when that holds at all its points |
| `ForeignPads.BendIsForeign` | `apps/pcb-viewer/lib/flow.ts:271-295` | a net's trace bends where another net has a pad: that pad is not harmless, and the net's local currents are not those of its own pads |
| `ForeignPads.PadAboveBend` | `apps/pcb-viewer/lib/flow.ts:371-386` | that trace carries one ampere; the solve gives its first half one less what the other net's device returns, and nothing at all when that is unknown |
| `BuildFlow.NumberNodes` | `apps/pcb-viewer/lib/flow.ts:371-373` | a net's nodes are numbered one to one |
| `BuildFlow.AddRows` | `apps/pcb-viewer/lib/flow.ts:391-396` | every solved edge gets a row of its own and its quad points at it; no other quad changes |
| `BuildFlow.FlowOfNet` | `apps/pcb-viewer/lib/flow.ts:357-396` | one net: its distances, its solve or the reason there is none, and its rows |
| `BuildFlow.Peaks` | `apps/pcb-viewer/lib/flow.ts:402-417` | the peak of a row and of the table |
| `BuildFlow.BuildFlow` | `apps/pcb-viewer/lib/flow.ts:241-417` | every piece of copper of a trace with a signal has its quad; resolved quads and rows correspond one to one, every net shows its own solve, each row and the table have their peak, and unsolved nets are listed with their reason; phase and morph are not part of the table |
| `BuildFlow.RibbonShowsItsOwnCurrent` | `apps/pcb-viewer/lib/copper.ts:64-73` | a drawn ribbon carries the current solved for that very piece of copper, or none when there is none |
| `Autosave.DocumentHook.SendFor` | `apps/web/lib/useDocument.ts:426-441` | opening a save puts the document in flight and sends it with the given stamp |
| `Autosave.DocumentHook.Flush` | `apps/web/lib/useDocument.ts:503-516` | a flush sends the queued document with the held stamp only when nothing is in flight |
| `Autosave.DocumentHook.Schedule` | `apps/web/lib/useDocument.ts:518-537` | an edit is queued for the server and for the device, and keeps a shown conflict |
| `Autosave.DocumentHook.OverwriteWithMine` | `apps/web/lib/useDocument.ts:662-668` | a forced save sends the queued document, or the one on screen, without a stamp |
| `Autosave.DocumentHook.OnSaved` | `apps/web/lib/useDocument.ts:455-479` | a success takes the new stamp, sends what was queued, and otherwise erases the device copy |
| `Autosave.DocumentHook.OnFailed` | `apps/web/lib/useDocument.ts:480-497` | a failure puts the document back in the queue unless a newer one waits, and shows a conflict for a refusal, an error otherwise |
| `Autosave.DocumentHook.PersistNow` | `apps/web/lib/useDocument.ts:283-300` | the device write takes what waits for it |
| `AutosaveProtocol.RunKeepsInv` | `apps/web/lib/useDocument.ts:426-537` | the invariant of client, wire and server is kept by every step of every run |
| `AutosaveRuns.NoEditIsLost` | `apps/web/lib/useDocument.ts:426-537` | over every run at most one save is open, the newest document is queued, in flight or accepted, and clean means the accepted document is the one on screen |
| `AutosaveRuns.StatusIsTrue` | `apps/web/lib/useDocument.ts:480-537` | over every run the status tells the truth; a conflict is shown only after the server refused a save, and not since the last forced one |
| `AutosaveRuns.EndingsAreShown` | `apps/web/lib/useDocument.ts:480-497` | a save that breaks or is given up shows an error, a refused one a conflict |
| `AutosaveRuns.ConflictStays` | `apps/web/lib/useDocument.ts:518-537` | a shown conflict stays until something is sent |
| `AutosaveSaves.AdoptedIsAtRest` | `apps/web/lib/useDocument.ts:341-363` | an adopted document is clean and nothing is due |
| `AutosaveSaves.CalmSaveSettles` | `apps/web/lib/useDocument.ts:426-516` | from every reachable state with a save due and nothing open, that save undisturbed leaves the document on screen stored under a fresh stamp, which the client holds, the device copy erased and nothing due |
| `AutosaveSaves.AnswerMovesOn` | `apps/web/lib/useDocument.ts:455-479` | an answered save: another document queued meanwhile is sent at once under the new stamp, else the device copy is erased |
| `AutosaveSaves.OvertakenIsRefused` | `apps/api/src/working-copy/working-copy.service.ts:56-80` | after any other write or discard a stamped save under way is refused and changes nothing on the server |
| `AutosaveSaves.ForcedSaveHearsItself` | `apps/api/src/working-copy/working-copy.service.ts:91-100` | a forced save is answered with the stamp it wrote, whatever is written before the answer is heard |
| `AutosaveSaves.AcceptedWasStored` | `apps/api/src/working-copy/working-copy.service.ts:56-100` | over every run the document taken for accepted is the one adopted or one this client stored on the server |
| `AutosaveRuns.ScreenIsRecoverable` | `apps/web/lib/useDocument.ts:518-537` | unless the device refused a write or was cleared since the last edit or stored copy, the document on screen is about to be written there, is there, or is accepted |
| `AutosaveSaves.ScreenIsKept` | `apps/web/lib/useDocument.ts:283-300` | that holds over every run in which no device write was refused and nothing discarded since the last edit |
| `AutosaveSaves.PersistStores` | `apps/web/lib/useDocument.ts:283-300` | the device write stores the document on screen when one is due, and a refused one leaves the device as it was |
| `AutosaveRuns.EraseOnlyWhenSafe` | `apps/web/lib/useDocument.ts:467-477` | a completed save erases the device copy only when the accepted document is on screen and nothing waits |
| `AutosaveRuns.UnseenExactlyWhenOvertaken` | `apps/api/src/working-copy/working-copy.service.ts:56-85` | a stamped save the server would take replaces another writer's unseen document exactly when its stamp was answered, to an earlier save, in place of the stamp that save wrote |
| `AutosaveRuns.UnseenExactlyWhenAnswerDiffers` | `apps/api/src/working-copy/working-copy.service.ts:81-84` | where no forced save was given up, that is exactly when the answered stamp differs from the written one |
| `AutosaveRuns.QuietRunsReplaceNothingUnseen` | `apps/api/src/working-copy/working-copy.service.ts:44-56` | in every run in which nobody writes between a save's update and its read-back, no stamped save replaces a document this client has not seen |
| `AutosaveRuns.WriteInWindowIsLost` | `apps/api/src/working-copy/working-copy.service.ts:62-84` | from every reachable state between update and read-back, one foreign write leads to a save that replaces it unseen |
| `AutosaveRuns.WindowIsReached` | `apps/api/src/working-copy/working-copy.service.ts:62-84` | any first edit of an adopted working copy gets there |
| `AutosaveRuns.NothingLandsAfterRefusal` | `apps/web/lib/useDocument.ts:482-497` | after a refusal and until a forced save each landing of this client is that of a forced save given up before; without one nothing lands, however many edits, timers and retries follow |
| `AutosaveRuns.LandsAfterRefusalExactlyWhen` | `apps/web/lib/useDocument.ts:482-497` | after a refusal nothing can land exactly when no forced save given up is still under way |
| `AutosaveRuns.ForcedSaveLandsLate` | `apps/web/lib/useDocument.ts:482-497` | a run in which one is, and lands after an ordinary save was refused |
| `AutosaveRuns.AcceptedIsNotUndone` | `apps/api/src/working-copy/working-copy.service.ts:44-56` | once a save is accepted and answered, no stamped save given up before it is ever taken again |
| `AutosaveRuns.RefusedSaveCanBeForced` | `apps/web/lib/useDocument.ts:655-668` | a refused save is queued again, so forcing it sends the document on screen unconditionally |
| `Wilson.BoundsAreTheRoots` | `packages/eda-core/src/montecarlo.ts:290-299` | the bounds are exactly the two points whose squared distance from the share equals z squared times their variance; 0 <= low <= share <= high <= 1 and the clamps change nothing |
| `Wilson.Engine95IsExact` | `packages/eda-core/src/montecarlo.ts:245-246` | the source's percentile and its square are among the parameters the results are about |
| `Wilson.NoSamples` | `packages/eda-core/src/montecarlo.ts:290-291` | without samples the interval is the whole unit interval |
| `Wilson.BoundsMonotone` | `packages/eda-core/src/montecarlo.ts:290-299` | one more pass at the same number of samples moves neither bound down |
| `Wilson.AllPassing` | `packages/eda-core/src/montecarlo.ts:256-262` | an all-pass sample has lower bound n/(n+z squared) and upper bound one |
| `Wilson.ExcessSign` | `packages/eda-core/src/montecarlo.ts:290-299` | the score condition holds exactly between the bounds |
| `MonteCarlo.RequiredRunsIsLeast` | `packages/eda-core/src/montecarlo.ts:256-270` | the required run count is the least number of clean samples whose lower bound reaches the bar |
| `MonteCarlo.ComputeYield` | `packages/eda-core/src/montecarlo.ts:307-327` | the tallies count every outcome once |
| `MonteCarlo.RunMonteCarlo` | `packages/eda-core/src/montecarlo.ts:158-241` | the run is the one the exits define; of its attempts, passed are those that ran with every one of some criteria held, failed those that ran otherwise, errored those that did not run, and the share is that of the first among the first two |
| `MonteCarlo.RunIsDetermined` | `packages/eda-core/src/montecarlo.ts:152-157` | options, variants and clock fix how many attempts run and whether the run stopped early |
| `MonteCarlo.RunEndsExactly` | `packages/eda-core/src/montecarlo.ts:158-241` | a run ends as soon as it has earned an early stop, has the samples or attempts it is for, or is interrupted, never sooner, with the defaults and limits spelled out |
| `MonteCarlo.BarOutsideAsksForAll` | `packages/eda-core/src/montecarlo.ts:266-270` | a bar of zero or less, or one or more, asks for 50,000 samples |
| `MonteCarlo.DecidedExactlyWhenGraded` | `packages/eda-core/src/montecarlo.ts:283-287` | the stop rule fires exactly when the grade is known and is not a marginal one still reaching the robust bar |
| `MonteCarlo.DecidedStopIsGraded` | `packages/eda-core/src/montecarlo.ts:425-440` | a bar-aware run that its own last sample ends, whatever the clock, is never graded unknown under the same bars |
| `MonteCarlo.FlawlessRunIsRobustExactlyWhen` | `packages/eda-core/src/montecarlo.ts:176-241` | an uninterrupted run in which every variant passes is graded robust exactly when its target of samples can earn it |
| `MonteCarlo.DefaultFlawlessRunIsRobust` | `packages/eda-core/src/montecarlo.ts:178-186` | without an explicit count that is exactly when the bar is below one and its run count within the absolute cap |
| `SettledTiers.RobustSettledExactlyWhen` | `packages/eda-core/src/montecarlo.ts:272-282` | `robust` stands whatever samples follow exactly when it stands if they all fail |
| `SettledTiers.AtRiskSettledExactlyWhen` | `packages/eda-core/src/montecarlo.ts:272-282` | `at-risk` stands exactly when it stands if they all pass |
| `SettledTiers.MarginalSettledExactlyWhen` | `packages/eda-core/src/montecarlo.ts:272-282` | `marginal` stands exactly when failing throughout keeps the lower bar and passing throughout misses the upper |
| `SettledTiers.RobustCanBeRevoked` | `packages/eda-core/src/montecarlo.ts:272-282` | consumer bars: 381 passes of 381 are decided, and one failure more, in a run with a larger count than the default 381, lowers the grade |
| `SettledTiers.AtRiskCanBeRevoked` | `packages/eda-core/src/montecarlo.ts:272-282` | consumer bars: 24 failures are decided, and 357 passes to make up the 381 lift the grade |
| `SettledTiers.MarginalCanBeRevoked` | `packages/eda-core/src/montecarlo.ts:272-282` | consumer bars: 189 of 200 are decided, and failures to make up the 381 lower the grade |
| `Criteria.MergeCriteria` | `packages/llm-core/src/design-core.ts:697-719` | a merge keeps every criterion, adds only criteria of required quantities nothing measured, none twice, and leaves no offered quantity out |
| `Criteria.MissingMeans` | `packages/llm-core/src/design-core.ts:353-363` | what is missing is exactly what is asked for, a voltage apart, and measured by no criterion |
| `Criteria.ExtendingCovers` | `packages/eda-core/src/analysis/assertions.ts:583-596` | extending criteria never uncovers a quantity |
| `Criteria.OfferedIsCovered` | `packages/llm-core/src/design-core.ts:697-719` | where criteria that count as the same measure the same quantity, a fix that offers a criterion for a required quantity settles it |
| `Criteria.OfferIsTakenExactlyWhen` | `packages/llm-core/src/design-core.ts:706-715` | without that, a single offer for a quantity nothing measures settles it unless a held criterion already counts as the same |
| `DesignLoop.RunDesignLoop` | `packages/llm-core/src/design-core.ts:182-482` | every outcome is accounted for: the design returned follows from the start by justified requests, one a round and fewer than the rounds; a positive verdict was checked in its own last round, an inconclusive one gave no answer, a negative one names what stood in the way |
| `DesignLoop.Round` | `packages/llm-core/src/design-core.ts:225-442` | one round: rule check, netlist, simulation, verdict or a justified request |
| `DesignLoop.Judge` | `packages/llm-core/src/design-core.ts:323-442` | assertions are those evaluated this round on the current criteria, never stale ones |
| `DesignLoop.Exhausted` | `packages/llm-core/src/design-core.ts:445-482` | the warning when the rounds run out states what the last round found |
| `DesignLoop.CriteriaOnlyGrow` | `packages/llm-core/src/design-core.ts:697-719` | however many fixes, the criteria only extend those of the start, by required quantities nothing measured |
| `DesignLoop.RequiredQuantityPassed` | `packages/llm-core/src/design-core.ts:353-357` | a positive verdict leaves every required quantity measured by a criterion that passed |
| `DesignLoop.PositiveVerdictMeans` | `packages/llm-core/src/design-core.ts:323-402` | a positive verdict: no rule error, a netlist that probes every current the criteria read, a successful simulation with data in that very round, every criterion passed, every required quantity measured |
| `DesignLoop.NoAnswerMeans` | `packages/llm-core/src/design-core.ts:262-333` | which simulations say nothing of the design |
| `DesignLoop.OverlaysKept` | `packages/llm-core/src/design-core.ts:494-511` | a request a fix dropped is back exactly when a criterion needs it and both analyses are of the kind that makes it |
| `DesignLoop.LimitIsNearest` | `packages/llm-core/src/design-core.ts:184` | one to four rounds, as near to what was asked as that allows, two by default |
| `DesignLoop.LeftOverIsEarlier` | `packages/llm-core/src/design-core.ts:323-333` | the assertions a failed result shows when its last round judged nothing are those of an earlier round's design |
| `DesignLoop.StaleAssertions` | `packages/llm-core/src/design-core.ts:445-482` | a run whose result shows a circuit that failed the rule check with the assertions of the one before |
| `Finalists.SlackIsTheTightest` | `packages/llm-core/src/design-core.ts:866-894` | the slack of a candidate is its tightest criterion's |
| `Finalists.HeadroomOf` | `packages/llm-core/src/design-core.ts:866-893` | one criterion's headroom: the distance on the good side of its target, or what is left of its tolerance, in units of the target |
| `Finalists.HeadroomMeansMet` | `packages/llm-core/src/design-core.ts:866-893` | headroom is not negative exactly when the criterion is met |
| `Finalists.RobustnessSlack` | `packages/llm-core/src/design-core.ts:866-894` | the loop computes that slack |
| `Finalists.CompareIsTotal` | `packages/llm-core/src/design-core.ts:903-913` | of two candidates one is as good as the other, and swapping them swaps the verdict |
| `Finalists.CompareIsTransitive` | `packages/llm-core/src/design-core.ts:903-913` | the ranking is transitive, strictly when either step is strict |
| `Finalists.BetterMeans` | `packages/llm-core/src/design-core.ts:903-913` | the better candidate simulates; or meets its criteria; or has more headroom, or came closer; or has fewer parts |
| `Finalists.TopologyMeans` | `packages/llm-core/src/design-core.ts:853-858` | one topology: as many nets, and as many components of every kind |
| `Finalists.SelectFinalists` | `packages/llm-core/src/design-core.ts:920-928` | a ranked list of distinct topologies, as many as asked and available; each left-out candidate is no better than the chosen one of its topology, or than every one chosen |
| `Finalists.Consider` | `packages/llm-core/src/design-core.ts:921-926` | the first of the best candidates of each topology is kept |
| `Drivers.WalkNetForDrivers` | `packages/eda-core/src/supply-corner.ts:51-68` | one net: its sources collected once per designator, its neighbours enqueued once |
| `Drivers.AllReached` | `packages/eda-core/src/supply-corner.ts:76-87` | when the queue is empty every reachable net has been walked |
| `Drivers.DriversOf` | `packages/eda-core/src/supply-corner.ts:77-87` | exactly the non-zero steady sources touching a net reachable through non-source parts without entering ground, once per designator |
| `Drivers.ValidatePowerRails` | `packages/eda-core/src/supply-corner.ts:105-133` | a power net is trusted exactly when it is not ground and one designator drives it; each deferral says which condition failed |
| `Corners.TolerancedComponents` | `packages/eda-core/src/corner.ts:75-86` | all and only the components that can be cornered, in circuit order |
| `Corners.CornerVariants` | `packages/eda-core/src/corner.ts:93-131` | variant m puts each cornered component at the side bit m gives it and changes nothing else; components with names of their own are recorded there |
| `Corners.EndIsOff` | `packages/eda-core/src/corner.ts:121` | the ends are written from the magnitudes the tolerance's share below and above the nominal one |
| `Corners.KeptMeans` | `packages/eda-core/src/corner.ts:101-103` | the first components in circuit order, as many as the cap, eight unless set and at least one, allows |
| `Corners.NamesPicked` | `packages/eda-core/src/corner.ts:104-107` | the omitted names are those there are, in circuit order |
| `Corners.SidesRepeat` | `packages/eda-core/src/corner.ts:119` | beyond 32 components two of them 32 places apart always sit at the same side |
| `Corners.EveryAssignmentCountedExactlyWhen` | `packages/eda-core/src/corner.ts:113-120` | every lo/hi assignment is enumerated exactly when at most 30 components are cornered |
| `Corners.AssignmentsDiffer` | `packages/eda-core/src/corner.ts:113-120` | no assignment is enumerated twice |
| `Corners.RunVariants` | `packages/eda-core/src/corner.ts:138-186` | each variant is run once; passed are those answered with every one of some criteria held, errored those not answered, the worst corners those answered otherwise, in order; all pass exactly when there are variants, each passed, and no name is reported omitted |
| `Corners.RunWorstCase` | `packages/eda-core/src/corner.ts:133-186` | over a circuit: up to 30 components pass exactly when there is one, every assignment of ends ran and passed, and whatever the cap left out is nameless; with no nameless component and a cap of at most 30, exactly when there is one, none was left out and every assignment passed |
| `Corners.UnnamedOmissionIsHidden` | `packages/eda-core/src/corner.ts:104-107` | a circuit, which the API would reject, whose verdict is a pass although the cap left out a component that has no name to report |
| `Playback.SegmentResumes` | `apps/pcb-viewer/lib/simulation.ts:115-132` | resuming from an earlier frame's segment finds what a search from the start finds |
| `Playback.Resample` | `apps/pcb-viewer/lib/simulation.ts:121-140` | every frame of the column gets the value its own search would give; no other cell changes |
| `Playback.SamplesAreShown` | `apps/pcb-viewer/lib/simulation.ts:133-138` | a frame at a sample's own time shows the first sample of that time, repeated times included |
| `Playback.ValuesStayBetween` | `apps/pcb-viewer/lib/simulation.ts:133-138` | from the first sample of one time to the next sample the value stays between theirs |
| `Playback.ValuesAreOnTheLine` | `apps/pcb-viewer/lib/simulation.ts:133-138` | there it lies on the straight line through the two |
| `Playback.CellsByFrame` | `apps/pcb-viewer/lib/simulation.ts:121-140` | the table is laid out frame by frame, one cell a slot |
| `Playback.EndsAreHeld` | `apps/pcb-viewer/lib/simulation.ts:133-138` | before the run the first sample is held; after it the last, or the one before when those two share a time |

## Left out

- Floating point: reals throughout, so rounding, NaN and overflow are not modelled; the explicit 1e-9 tolerances and the
  0.01 mm output rounding are.
- Placement: edge building from nets, degree and seed layouts, the boundary and connector pull and the integration step
  of the force loop, the up-front board growth, the choice among several starts (`Place.PlaceFrom` starts from any one
  relaxed layout), wire-length computation (any measure of a layout in `Refiner.Refine`), statistics and notes.
- Placement nets are numbers with one value for the empty name; only equality of names matters to the kernel. Sorting is
  stable insertion by the source's comparator.
- Legalizer.Legalize: a failure does not say that no legal cell exists on the board; beyond the fine radius the search
  samples coarse rings only, in the source as in the model.
- Board currents: token phase and morph baking, tiers and flux rates. Values are kept per row, not in one flat typed
  array, and a ribbon's vertices are grouped per quad rather than spread over parallel vertex arrays. A net's nodes are
  numbered per net; the board-wide numbering before that is replaced by the snapped point itself.
- BuildFlow.Peaks: one peak per row, and so none for a board without a solved edge, where the source's array keeps one
  unused entry.
- Distances.AssignDistances: says nothing about copper with a loop, where quads off the walk's tree keep distance zero
  in the source too.
- Autosave: aborted requests, re-adoption and switching projects, taking the other side's document, the save on leaving
  the page, provenance of versions, and recovery prompts. A run starts with no request open and an empty device copy.
  Every write gets a stamp of its own; two writes within one tick of the server's clock are not modelled.
- Monte-Carlo: drawing component values, the seeded generator, probe resolution, profile names and note texts. The clock
  is a function of the attempt; boolean outcome lists are not modelled apart from the three-way outcomes.
- Design loop: generation itself, catalogue sourcing, yield analysis, scope manifests, explanations and message texts.
  `required` stands for the dimensions read off the prompt; probe syntax is two arbitrary functions. Closeness scores
  and screening are inputs of the ranking.
- Criteria.OfferedIsCovered: assumes that criteria with one key measure one quantity. The source's key breaks that only
  for a voltage probe spelled like a current key, such as `i:r1` beside `i(R1)`; `Criteria.OfferIsTakenExactlyWhen`
  needs no such assumption.
- Finalists.SelectFinalists: does not fix the order of equally good candidates, nor that sorting keeps their first-seen
  order.
- Supply corners: the drift report and the driver variants beyond the same enumeration as `Corners.CornerVariants`.
- Value parsing, regular expressions and unit rewriting are arbitrary functions.
- Playback: gathering the series of all nets and the colour range.
- User interface, three.js and shaders, network, queues, databases and storage internals.
