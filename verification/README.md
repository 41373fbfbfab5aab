# Document upload service: a verified model

A model in Dafny of the hard parts of a document conversion service, with proofs. A router
admits uploads through bounded gates, converts files on a small worker pool, and lets a
broker parse them in sandboxed child processes. A layout engine turns PDF pages into
Markdown, and a vision model reads scanned pages.

| part | modules |
|---|---|
| Admission gates, worker pool and page fan-out, as a step system over any number of requests, files and pages and any capacities | Sums, WorkerPool, Admission, Outcomes, Budget, BudgetRuns |
| The seccomp program generator: a classic BPF interpreter, a declarative policy, the compiler between them, and the installed lists | Bpf, ParserPolicy, ParserSandbox |
| Bordered tables: snapping and joining edges, intersections, cells, connected components | Sorting, Snapping, SnapEdges, Joining, Rounding, MergeEdges, TableCells, Crossings, CellGroups, DetectTables, DetectOrder |
| Tables without vertical rules, the character grid, and the Markdown of a table | TextColumns, TableGrid, TableText |
| Text columns of a page: three merging phases and reading order | Rects, ColumnBlocks, ColumnStacks, ColumnMerge, ReadingOrder, ColumnSides, ColumnBoxes |
| Lines to Markdown | Spans, Markdown, ColumnText, Cleaning, ColumnMarkdown |
| Removal of repetition loops from model output | Repetition |
| Error chains, capped output, the outcome of a parser run and its way to the caller | Errors, ParserClient, ParserRun |
| The five PDF modes and the fan-out to the vision model | Pages |
| Shared types | Wrappers |

`dafny verify dfyconfig.toml` checks the whole project.

Where the code changes state in place the model does too: arrays for edges, blocks and
`used` flags, a class for the capped buffer, loops over locals elsewhere. Each such method is
tied to a specification function or predicate, and the lemmas are about those. Concurrency
is modelled by steps: a step is one channel operation, one context event, or one return of
code that touches no gate, and the theorems hold for every order of steps. Coordinates are
real numbers. A sort is any sorted permutation, and a loop over a Go map picks keys in any
order.

Parameters stand for what is outside: the conversion of a file, the answer of the vision
model and the filter on its descriptions in Pages, strings.TrimSpace in Repetition, the white
space, bullet and header tables in Markdown, the course of the operating system in ParserRun,
the HTTP exchange in ParserClient.

## Where code and documentation disagree

- The comment on appendArgumentMaskRule says the argument must contain the mask; the code
  accepts any common bit. The two agree for every argument exactly for masks of one bit, such
  as CLONE_THREAD (`Bpf.OverlapIsContainment`). The model follows the code.
- The VLM gate is described as one service-wide budget (internal/server/main.go:50-52), but the
  OCR of a standalone image (internal/server/convert.go:78) does not take it. With the default
  capacities eleven calls can be in flight instead of eight (`BudgetRuns.DefaultBudgetExceeded`),
  and never more (`Budget.RunBound`). The budget is kept for given uploads exactly if no files
  that may be converted together exceed it (`BudgetRuns.BudgetExactly`), in particular without
  such images, and for all uploads exactly if one document is converted at a time.
- A scanned page missing from the rendered pages fails the document in mode vlm
  (`Pages.VlmSections`), and gives an empty section without an error in modes text and vision
  (`Pages.TextSections`, `Pages.VisionSections`).

## Model

| member | source | states |
|---|---|---|
| `Admission.RequestStepAccounts` | internal/server/main.go:291-311 | each step of a request moves tokens between a gate and that request one for one, overfills no gate, and lowers its rank |
| `Admission.StepKeepsInv` | internal/server/main.go:291-311 | every step of any request keeps the invariant: tokens in each of the four gates equal the tokens held, no gate above capacity, every pool in order |
| `Admission.RunInv` | internal/server/main.go:170-280 | the invariant holds after every run of any number of requests, files and pages, and a run is no longer than the rank it started with |
| `Admission.AdmissionBounds` | internal/server/main.go:288-311 | at most cap(active) requests buffer a body, at most cap(active)+cap(queue) are in service, no release ever blocks |
| `Admission.GatesOpenExactly` | internal/server/main.go:291-311 | in every reachable state each gate opens for a request exactly while fewer tokens of it are held than its capacity; a request is refused exactly when the queue is full, and only a waiting one gives up or times out |
| `Admission.AtMostTwoConversions` | internal/server/main.go:341-345 | one request holds at most two document tokens |
| `Admission.Progress` | internal/server/main.go:291-383 | deadlock freedom: until every request is finished some step is enabled that needs no timer and no cancellation |
| `Admission.VlmHolderMoves` | internal/server/vlm.go:286-306 | whoever holds a VLM token can finish its call |
| `Admission.DocumentHolderMoves` | internal/server/main.go:358-365 | whoever holds a document token can move on when no VLM token is held |
| `Admission.ActiveHolderMoves` | internal/server/main.go:170-180 | whoever holds an active slot can move on when no document or VLM token is held |
| `Admission.MaximalRunsFinish` | internal/server/main.go:170-280 | a run that cannot be extended has finished every request and emptied all four gates |
| `Admission.RunOutcomes` | internal/server/main.go:331-383 | after every run an answered request has the converted document of each file at its index, and no reported error was caused by the cancellation of the pool itself |
| `Outcomes.RunHasTrace` | internal/server/main.go:170-280 | every run has a sequence of labelled steps, so what is said by steps is said of every run |
| `Outcomes.OutcomeOfRun` | internal/server/main.go:257-383 | every finished request ended as its own steps tell: queue full, queue timeout, client left and rejected each exactly after the step of that name; with a failed conversion exactly if a conversion failed, and then with the index and cause of one that did; with an ended context only if the client left; answered with the document of each file at its index |
| `Outcomes.GoodRequestIsAnswered` | internal/server/main.go:376-383 | a finished request whose pool was started, whose client stayed and none of whose conversions failed was answered with the converted document of each file at its index |
| `WorkerPool.PoolStepAccounts` | internal/server/main.go:346-375 | each worker step conserves document and VLM tokens and lowers the remaining work |
| `WorkerPool.PoolStepKeepsOk` | internal/server/main.go:346-375 | each step keeps: no job taken twice, stored results are right, nothing taken is lost unless the pool was cancelled, the first error is not the cancellation |
| `WorkerPool.NewPoolOk` | internal/server/main.go:331-345 | the pool starts in order |
| `WorkerPool.JoinedResults` | internal/server/main.go:376-383 | when all workers have exited without an error, each file was converted exactly once and results[i] belongs to files[i] |
| `WorkerPool.StepKeepsErrorFirst` | internal/server/main.go:366-372 | once an error is recorded it stays, and cancellation of the pool only follows a recorded error |
| `Budget.RunBound` | internal/server/convert.go:67-85 | a standalone image is sent without the gate, yet on no run are more than cap(vlm)+cap(document)-1 calls in flight: every call runs under a document token |
| `Budget.RunIsPlanned` | internal/server/main.go:41-52 | the calls in flight on any run are no more than some choice of files, at most two a request and within the capacities, has pages (up to the gate) and images |
| `BudgetRuns.PlanIsReached` | internal/server/convert.go:78-78 | and every such choice is reached: some run has exactly these calls in flight |
| `BudgetRuns.BudgetExactly` | internal/server/main.go:50-52 | the service-wide budget is kept on every run of given uploads if and only if no such choice exceeds it |
| `BudgetRuns.NoPicturesKeepBudget` | internal/server/vlm.go:286-306 | without standalone images for the VLM the budget is kept on every run |
| `BudgetRuns.BudgetForAllUploads` | internal/server/main.go:47-52 | the budget is kept whatever is uploaded if and only if one document is converted at a time |
| `BudgetRuns.DefaultBudgetExceeded` | internal/server/main.go:34-52 | with the default capacities two concrete requests have a run with eleven calls in flight where the budget says eight, the most there can be |
| `Bpf.AttachableNeverFaults` | internal/sandbox/parser_linux_amd64.go:200-241 | a program that passes the check of the kernel ends in a verdict from every reachable instruction |
| `Bpf.Relocate` | internal/sandbox/parser_linux_amd64.go:285-291 | code behind a prefix behaves as it does alone: jumps are relative |
| `Bpf.PrependKeepsAttachable` | internal/sandbox/parser_linux_amd64.go:245-291 | a fragment whose jumps stay inside it or fall through keeps the program attachable |
| `Bpf.OneBitOverlapIsContainment` | internal/sandbox/parser_linux_amd64.go:243-261 | the any-bit test of the mask rule is containment of the mask for single-bit masks |
| `Bpf.OverlapIsContainment` | internal/sandbox/parser_linux_amd64.go:243-261 | the two tests agree for every argument if and only if the mask has exactly one bit |
| `ParserPolicy.RuleFragment` | internal/sandbox/parser_linux_amd64.go:245-283 | a rule decides its own call by its argument and hands every other call on with the call number back in the accumulator |
| `ParserPolicy.DenyFragment` | internal/sandbox/parser_linux_amd64.go:234-239 | one deny entry refuses its own call and falls through for any other |
| `ParserPolicy.DenyListFragment` | internal/sandbox/parser_linux_amd64.go:234-240 | a deny list refuses exactly its members and then allows |
| `ParserPolicy.RulesFragment` | internal/sandbox/parser_linux_amd64.go:210-240 | an arbitrary list of rules in front of an arbitrary deny list: the first rule for a call decides, else the list |
| `ParserPolicy.CompilerCorrect` | internal/sandbox/parser_linux_amd64.go:200-241 | for every list of rules, deny list, accumulator and seccomp_data the program returns the verdict of the policy in at most its length in steps |
| `ParserPolicy.CompiledIsAttachable` | internal/sandbox/parser_linux_amd64.go:200-241 | all jumps of a compiled program land inside it and all loads are legal |
| `ParserPolicy.DenyOrderIrrelevant` | internal/sandbox/parser_linux_amd64.go:229-239 | deny lists with the same members give the same verdicts |
| `ParserPolicy.CodeLengths` | internal/sandbox/parser_linux_amd64.go:245-283 | six instructions a rule and two a denied call |
| `ParserSandbox.AppendArgumentMaskRule` | internal/sandbox/parser_linux_amd64.go:245-261 | the emitted instructions are the compiled mask rule |
| `ParserSandbox.AppendDenyList` | internal/sandbox/parser_linux_amd64.go:234-239 | the emitting loop appends the compiled deny list |
| `ParserSandbox.EmitFilters` | internal/sandbox/parser_linux_amd64.go:200-241 | the emitted program is the compiled form of the six rules and the four lists |
| `ParserSandbox.ParserFilters` | internal/sandbox/parser_linux_amd64.go:200-241 | the program with the real lists decides every call as the policy does, is attachable and has 303 instructions |
| `ParserSandbox.InstalledPolicy` | internal/sandbox/parser_linux_amd64.go:210-227 | the decision for each of the six ruled calls, and for all others by the lists |
| `ParserSandbox.UnruledDenialsHold` | internal/sandbox/parser_linux_amd64.go:229-239 | a denied call without a rule is killed, refused with ENOSYS or refused with EPERM by architecture and number alone |
| `ParserSandbox.ListedCallsNeverSucceed` | internal/sandbox/parser_linux_amd64.go:22-167 | no process, accumulator or argument makes a listed call succeed |
| `SnapEdges.SegmentsToEdges` | internal/pdftomd/tables.go:94-116 | every segment that is not diagonal has its edge, straight, directed along its axis and halfway between its ends, in order, and there are no other edges |
| `Snapping.SnapSeparates` | internal/pdftomd/tables.go:139-179 | snapping keeps the order and leaves distinct positions more than the tolerance apart |
| `Snapping.SnapKeepsTotal` | internal/pdftomd/tables.go:139-179 | the sum of the positions is unchanged |
| `Snapping.SnapFixes` | internal/pdftomd/tables.go:139-179 | positions that are equal or farther apart than the tolerance stay |
| `Snapping.SnapIdempotent` | internal/pdftomd/tables.go:139-179 | snapping twice is snapping once |
| `Snapping.SnapKeepsEqual` | internal/pdftomd/tables.go:152-163 | equal positions go to the same place: no cluster ends between them |
| `Snapping.ClusterDrift` | internal/pdftomd/tables.go:154-163 | while a cluster grows to n edges no edge is more than tol/2+...+tol/n below its mean, nor more than tol(n-1)/n above |
| `Snapping.SnapDisplacement` | internal/pdftomd/tables.go:139-179 | every position moves up by at most tol/2+...+tol/n and down by at most tol(n-1)/n, n being the number of edges at its new place |
| `Snapping.ClusterWiderThanTolerance` | internal/pdftomd/tables.go:150-163 | concrete positions that form one cluster wider than the tolerance |
| `SnapEdges.ClustersSpread` | internal/pdftomd/tables.go:150-178 | the clusters of the loop assign to every index the value of the recursive specification |
| `SnapEdges.ClusterEdges` | internal/pdftomd/tables.go:152-163 | the clusters hold all indices in order and their averages are the snapped positions |
| `SnapEdges.MoveClusters` | internal/pdftomd/tables.go:165-177 | every edge of the array moves to the value of its cluster, once |
| `SnapEdges.SnapByAttr` | internal/pdftomd/tables.go:139-179 | the array ends as a sorted permutation of the input with each edge moved to its snapped position |
| `Joining.JoinIsRuns` | internal/pdftomd/tables.go:206-226 | the merge loop returns exactly the maximal runs of its segments |
| `Joining.JoinSpaced` | internal/pdftomd/tables.go:206-226 | outputs are in order and more than joinTolerance apart |
| `Joining.JoinCovers` | internal/pdftomd/tables.go:206-226 | every input segment lies in one output segment |
| `Joining.RunIsBridged` | internal/pdftomd/tables.go:206-226 | every output point lies in an input segment or in a gap of at most joinTolerance |
| `Joining.JoinIdempotent` | internal/pdftomd/tables.go:206-226 | joining the segments of one line again changes nothing |
| `Joining.JoinOrderIrrelevant` | internal/pdftomd/tables.go:199-226 | equal sets of segments join to the same list, however a sort breaks ties |
| `MergeEdges.JoinLine` | internal/pdftomd/tables.go:200-226 | the merged edges of a group are the join of its sorted spans on the line of the group |
| `MergeEdges.JoinOfUnique` | internal/pdftomd/tables.go:182-229 | the joined spans of a line depend on its segments only |
| `MergeEdges.JoinedAreRuns` | internal/pdftomd/tables.go:182-229 | on snapped lines an edge is in the result exactly if it is a maximal run, with gaps of at most 3, of the edges of its direction and position |
| `MergeEdges.JoinEdges` | internal/pdftomd/tables.go:182-229 | for any visiting order of the map each line of the result is the join of that line of the input |
| `MergeEdges.JoinEdgesOrderIrrelevant` | internal/pdftomd/tables.go:182-229 | on snapped lines the resulting multiset of edges does not depend on map order |
| `MergeEdges.JoinEdgesIdempotent` | internal/pdftomd/tables.go:182-229 | on snapped lines joining the joined edges again gives the same multiset of edges, whatever order either call visits its lines in |
| `MergeEdges.SnapOfFacts` | internal/pdftomd/tables.go:125-137 | snapped edges stay straight and their lines are equal or more than 3 apart |
| `MergeEdges.MergeAll` | internal/pdftomd/tables.go:118-137 | the merged edges are the joins of the snapped edges, on lines more than 3 apart |
| `MergeEdges.JoinKeepsLinesApart` | internal/pdftomd/tables.go:182-229 | joining moves no line |
| `Rounding.Round10KeepsApart` | internal/pdftomd/tables.go:231-260 | positions more than 3 apart stay more than 2.9 apart when rounded to a tenth |
| `Rounding.Round100KeepsApart` | internal/pdftomd/tables.go:188-197 | positions more than 3 apart get different keys when rounded to a hundredth |
| `TableCells.DropShort` | internal/pdftomd/tables.go:41-49 | exactly the edges of length at least 3 remain |
| `TableCells.FindIntersections` | internal/pdftomd/tables.go:231-260 | the map has as keys exactly the rounded crossings: positions of a vertical and a horizontal edge that have points within 3 of each other in both coordinates; each key with the edges that meet there |
| `TableCells.MeetIsNear` | internal/pdftomd/tables.go:240-250 | the overlap test of the loop holds exactly if the vertical edge has a point within 3, in both coordinates, of a point of the horizontal one |
| `Crossings.KeysAreCrossings` | internal/pdftomd/tables.go:41-60 | a point is found exactly if it is the rounded crossing of a vertical and a horizontal edge, both at least 3 long, that come within 3 of each other |
| `Crossings.CrossingOnRules` | internal/pdftomd/tables.go:231-260 | a crossing is within 3.05, in both coordinates, of a point of a vertical edge and of a point of a horizontal one |
| `TableCells.KeyInjective` | internal/pdftomd/tables.go:231-260 | after snap and join two pairs of edges share a rounded key only on the same two lines |
| `TableCells.GridIsApart` | internal/pdftomd/tables.go:231-260 | coordinates of meeting points are equal or more than 2.9 apart |
| `TableCells.BuildCells` | internal/pdftomd/tables.go:262-298 | the cells are exactly the elementary rectangles whose four corners are meeting points, in reading order |
| `TableCells.CellsArePositive` | internal/pdftomd/tables.go:262-298 | cells have positive width and height |
| `TableCells.CellsAreDisjoint` | internal/pdftomd/tables.go:262-298 | different cells have disjoint interiors |
| `TableCells.CornersAreWitnessed` | internal/pdftomd/tables.go:262-298 | each corner of a cell is where a vertical and a horizontal edge meet within the tolerance |
| `CellGroups.CornerToleranceIsExact` | internal/pdftomd/tables.go:351-362 | on cells of snapped edges the corner tolerance of 1 is equality of corners |
| `CellGroups.ComponentsEqual` | internal/pdftomd/tables.go:300-340 | components of the corner-sharing graph that meet are equal |
| `CellGroups.Sweep` | internal/pdftomd/tables.go:323-333 | one pass adds only cells connected to the group and, if nothing changed, none is left to add |
| `CellGroups.GrowGroup` | internal/pdftomd/tables.go:319-334 | the grown group is a whole connected component of unused cells |
| `CellGroups.GroupCellsIntoTables` | internal/pdftomd/tables.go:300-340 | the tables are the connected components of at least two cells, each once, and every such component is listed |
| `DetectTables.DetectCellTables` | internal/pdftomd/tables.go:31-75 | all stages up to the grouped cells: the meeting points are the crossings of the long merged edges; the tables are the components of at least four cells among the elementary rectangles between them; cells have positive area and do not overlap, and different tables share no corner |
| `DetectTables.TablesLieOnRules` | internal/pdftomd/tables.go:31-75 | every corner of every cell of a detected table is within 3.05, in both coordinates, of a point of a merged vertical and of a merged horizontal edge |
| `DetectOrder.SameMerged` | internal/pdftomd/tables.go:118-229 | snap and join together: equal multisets of edges give equal multisets of merged edges, whatever the sorts do with ties and in whatever order lines are visited |
| `DetectOrder.DetectionIsStable` | internal/pdftomd/tables.go:31-75 | two detections on the same segments, listed in any order, find the same tables, as sets of sets of cells |
| `TableGrid.FindIdxLoop` | internal/pdftomd/text_tables.go:249-256 | the first interval, widened by the slack, that holds the value, and -1 only if none does |
| `TableGrid.FillGrid` | internal/pdftomd/tables.go:394-432 | every cell is the words of its own characters in page order with one space between them, and a space at the end only behind a word; a character is in the row and column of the first intervals that hold its y and x |
| `TableGrid.CellKeepsInk` | internal/pdftomd/text_tables.go:152-165 | a cell has all visible characters of its members in order, no leading space and no double space |
| `TableGrid.CellKeepsWords` | internal/pdftomd/text_tables.go:152-165 | leaving out leading and repeated spaces changes no word of a cell |
| `TableGrid.GridConserves` | internal/pdftomd/text_tables.go:141-167 | the grid as a whole has exactly the visible characters that fall inside the table, each once |
| `TextColumns.InferColumnBoundaries` | internal/pdftomd/text_tables.go:212-247 | the boundaries, sorted, are the sides and exactly the middles between neighbours more than 15 apart, independent of the sort by size |
| `TextColumns.MiddlesInside` | internal/pdftomd/text_tables.go:222-245 | for collected characters interior boundaries are more than 2.5 inside the sides and more than 15 apart |
| `TextColumns.InferredBoundaries` | internal/pdftomd/text_tables.go:236-246 | the final sort leaves the sides at the ends |
| `TextColumns.ClearOfBoundaries` | internal/pdftomd/text_tables.go:222-233 | a character is more than 7.5 away from every interior boundary |
| `TextColumns.CollectedCharacterColumn` | internal/pdftomd/text_tables.go:249-256 | a collected character within the slack of the table gets the one column that encloses it, any other gets none |
| `TextColumns.NotFoundOutside` | internal/pdftomd/text_tables.go:249-256 | a value without a column lies left of the first boundary or right of the last |
| `TableText.RenderTable` | internal/pdftomd/tables.go:455-473 | the rendered text is the lines of the grid with the delimiter row after the first |
| `TableText.UnescapeEscape` | internal/pdftomd/tables.go:460-460 | undoing the pipe escape gives back every cell |
| `TableText.RowRoundTrip` | internal/pdftomd/tables.go:457-464 | a rendered row reads back exactly when no cell ends in a backslash and none has a line break that was replaced |
| `TableText.TableRoundTrip` | internal/pdftomd/tables.go:455-473 | a rendered table, read by splitting at unescaped pipes, gives back the grid with one delimiter row of the same width if and only if no cell ends in a backslash or has a line break, for either of the two renderers |
| `TableText.ReadDelimiter` | internal/pdftomd/text_tables.go:193-199 | the delimiter row reads as one rule for each column |
| `ColumnBlocks.CanExtend` | internal/pdftomd/columns.go:111-121 | true exactly when the extended rectangle overlaps no other block |
| `ColumnBlocks.PlaceBox` | internal/pdftomd/columns.go:78-97 | the box joins the first block it fits, or becomes a new last block |
| `ColumnBlocks.PhaseOne` | internal/pdftomd/columns.go:76-97 | every box is inside a block, every block holds a box, and the hull is unchanged |
| `ColumnBlocks.SortSameBottom` | internal/pdftomd/columns.go:140-162 | each run of blocks with the same bottom is sorted by left side in place and nothing else moves |
| `ColumnBlocks.CleanBlocks` | internal/pdftomd/columns.go:123-138 | adjacent duplicates go, runs are sorted, and the same boxes stay covered |
| `ColumnStacks.WidenRegroups` | internal/pdftomd/columns.go:169-183 | snapping the sides of one block to near sides of others uncovers nothing and leaves the hull |
| `ColumnStacks.WidenedIsOutermost` | internal/pdftomd/columns.go:169-183 | the widened block is the one that reaches the outermost left and right side within tolerance, and no other |
| `ColumnStacks.SnappedFacts` | internal/pdftomd/columns.go:169-183 | snapping all blocks moves no side in or by more than the tolerance, uncovers nothing and leaves the hull |
| `ColumnStacks.SnapSides` | internal/pdftomd/columns.go:169-183 | the array ends as the blocks widened one after the other, each seeing the sides already widened |
| `ColumnStacks.PhaseTwo` | internal/pdftomd/columns.go:164-204 | the snapped blocks, sorted, are stacked; every box stays covered and the hull is unchanged |
| `ColumnStacks.StackGroups` | internal/pdftomd/columns.go:191-203 | the stacked rectangles are the unions of consecutive groups of blocks: within a group both sides of each block are within 3 of those of the union so far and its top is within 10 of its bottom, and no group could have been continued |
| `ColumnMerge.MergePass` | internal/pdftomd/columns.go:218-242 | one pass of the nested loops computes the specified merge and tells whether it changed anything |
| `ColumnMerge.SettledIsMaximal` | internal/pdftomd/columns.go:219-242 | when a rectangle settles, any other pending one lies beside it, or their union touches a third rectangle |
| `ColumnMerge.JoinTouchesNoThird` | internal/pdftomd/columns.go:227-241 | a merge of two non-empty rectangles touches no third |
| `ColumnMerge.JoinKeepsApart` | internal/pdftomd/columns.go:227-241 | one merge keeps disjoint non-empty rectangles disjoint |
| `ColumnMerge.MergeKeeps` | internal/pdftomd/columns.go:215-245 | all merges together keep coverage, hull, and disjointness of disjoint inputs |
| `ColumnMerge.MergeCompatible` | internal/pdftomd/columns.go:211-245 | the loops terminate with that merge |
| `ReadingOrder.ReadingKeyIsHighest` | internal/pdftomd/columns.go:252-264 | the sort key of a box is the highest top among it and everything level with it on its left |
| `ReadingOrder.SortForReading` | internal/pdftomd/columns.go:247-277 | the result is a permutation sorted by that key |
| `ColumnBoxes.PhaseThree` | internal/pdftomd/columns.go:206-278 | phase 3 keeps coverage and hull, and disjoint non-empty inputs stay disjoint |
| `ColumnBoxes.ColumnBoxes` | internal/pdftomd/columns.go:64-109 | the boxes are placed, cleaned, stacked and merged; every one of them is inside a returned rectangle, none is returned empty or without a box, and the hull is that of the boxes; across every gap wider than 3 that no box enters the rectangles stay apart, and boxes in strips more than 3 apart, each strip with a vertical line through all its boxes, come back as one rectangle for each strip that has boxes |
| `ColumnBoxes.ColumnsStaySplit` | internal/pdftomd/columns.go:64-109 | if every box ends at or left of c1 or begins at or right of c2, more than 3 to the right, then so does every returned rectangle |
| `ColumnBoxes.ColumnsOnePerStrip` | internal/pdftomd/columns.go:64-109 | through all three phases: boxes of one column come back as one rectangle, and boxes of different columns never share one |
| `ColumnSides.ColumnHoldsItsBoxes` | internal/pdftomd/columns.go:64-109 | the rectangle of a column encloses each of its boxes |
| `Spans.MedianUnique` | internal/pdftomd/lines.go:220-242 | the median does not depend on the order of the characters |
| `Spans.MedianIsMiddle` | internal/pdftomd/lines.go:220-242 | the median is one of the values, at most half of them are below it and more than half are up to it |
| `Spans.BuildSpans` | internal/pdftomd/lines.go:159-206 | the spans are a lossless encoding by maximal runs: texts concatenate to the characters, neighbours differ in style, none is empty; every character has the four flags of its span, and is superscript exactly if smaller than 3/4 of the median size and more than 1 above the median baseline |
| `Spans.EncodingUnique` | internal/pdftomd/lines.go:159-206 | there is one such encoding |
| `Spans.RawTextInverts` | internal/pdftomd/markdown.go:269-275 | reading the spans gives back the characters |
| `Spans.LineRawText` | internal/pdftomd/markdown.go:269-275 | the loop concatenates the span texts |
| `Spans.AllSpansHaveStyle` | internal/pdftomd/markdown.go:277-287 | true exactly when there are spans and each one that is not blank has the style |
| `Spans.AllSpansHaveIsAboutChars` | internal/pdftomd/markdown.go:277-287 | all non-blank spans have a style exactly when all visible characters do |
| `Markdown.FencesAlternate` | internal/pdftomd/markdown.go:147-252 | fence markers alternate between opening and closing and pair up when no fence is open |
| `Markdown.PiecesInPlace` | internal/pdftomd/markdown.go:147-252 | code lines are inside fences; headers, bullets, text, breaks and tables are outside |
| `Markdown.ContinuationExtendsHeader` | internal/pdftomd/markdown.go:163-170 | a continuation directly follows a header line of the same level and its trim removes exactly the line break of that line |
| `Markdown.WriteLine` | internal/pdftomd/markdown.go:147-247 | one turn of the loop: what is written depends only on the line and the one written before it, and the loop variables remember no more than that line tells |
| `Markdown.WriteColumn` | internal/pdftomd/markdown.go:112-261 | the loops write exactly the pieces that this rule on adjacent lines prescribes, then the closing fence and the tables of the column |
| `Markdown.ColumnSound` | internal/pdftomd/markdown.go:112-261 | of everything written: fences end closed, each piece is on its side of them, continuations only follow headers of their level, every line that is not blank or in a table is there once, in order and as its kind, then the tables |
| `Markdown.CleanUpKeepsVisible` | internal/pdftomd/markdown.go:263-266 | the final replacements and trim lose and move no visible character |
| `ColumnText.TraceIsText` | internal/pdftomd/markdown.go:112-261 | all that is written, as a text of the lines and nothing else: which lines are left out, what each line becomes by its spans and styles, where fences, prefixes, empty lines and continuations go, then the tables |
| `ColumnText.KindIs` | internal/pdftomd/markdown.go:147-232 | a line is a header if its first span has the size of one, else code if all its visible spans are monospaced, else a bullet line if its first character besides blanks is a bullet, else prose |
| `Cleaning.ReplaceIsReplaced` | internal/pdftomd/markdown.go:263-265 | the replacement of a pattern: the text splits at the occurrences found from the left and is glued together with the substitute |
| `Cleaning.CleanUpIsCleaned` | internal/pdftomd/markdown.go:263-266 | the clean-up is two such replacements and the removal of white space at both ends |
| `ColumnMarkdown.WholeTextInk` | internal/pdftomd/markdown.go:147-252 | the visible characters of that text: of each line that is not left out its own or those of its formatted spans, with the emphasis marks its styles call for, header prefixes and fences, then those of the tables |
| `ColumnMarkdown.ColumnToMarkdown` | internal/pdftomd/markdown.go:96-267 | the whole function: that text, cleaned up; what can be read in the result is exactly what the lines and tables show, in order |
| `Repetition.CountRepeats` | internal/server/vlm.go:230-237 | the number of copies of the word at a position, maximal |
| `Repetition.BestLoop` | internal/server/vlm.go:228-244 | the length of the longest repetition loop at a position, 0 if there is none |
| `Repetition.ScanDecomposes` | internal/server/vlm.go:219-258 | every text decomposes into kept bytes that start no loop in the rest of the original and cut blocks that are the longest loop at their start; the scan keeps the kept bytes |
| `Repetition.DecompositionUnique` | internal/server/vlm.go:219-258 | the decomposition alone determines what survives |
| `Repetition.UnchangedIffLoopFree` | internal/server/vlm.go:255-258 | a text survives unchanged exactly when no position of it starts a loop |
| `Repetition.TruncateRepetition` | internal/server/vlm.go:219-258 | the in-place loops return the scan, trimmed only if something was cut |
| `Errors.ClassificationIsVerdict` | internal/processing/errors.go:83-93 | the code of a chain of any depth: cancellation anywhere in it, else its first classified layer, else failed |
| `Errors.TextNeverMatters` | internal/processing/errors.go:79-103 | chains with the same layers have the same code before and after staging and the same parser response, whatever their texts |
| `Errors.FirstStageWins` | internal/processing/errors.go:96-103 | the first stage fixes the code; later stages and prefixes cannot change it |
| `Errors.SpecificSurvives` | internal/processing/errors.go:96-103 | a specific code survives every later stage and prefix |
| `Errors.TravelKeepsCauses` | internal/processing/errors.go:71-81 | no wrapping of any depth hides a parser response or a cancellation |
| `Errors.CancellationPrevails` | internal/processing/errors.go:83-86 | a chain with a cancellation is reported as cancelled however it is wrapped |
| `ParserClient.ParserPost` | internal/server/parser_client.go:117-178 | the sequence of early returns computes the outcome of every exchange |
| `ParserClient.SuccessIsCompleteBody` | internal/server/parser_client.go:147-177 | a body is returned exactly for status 200, whole and within the limit |
| `ParserClient.OcrIsPublic` | internal/server/vlm.go:161-196 | a failed VLM call is reported with one of the OCR codes or as cancelled |
| `ParserClient.StagedIsPublic` | internal/server/parser_client.go:81-92 | a failed parser call is never reported with the generic parser failure |
| `ParserClient.CallersSeePublicCodes` | internal/server/main.go:257-380 | from every origin, the ended context of the pool included, and through every wrapping the caller gets 429 exactly for a busy broker, with its Retry-After if it is 1 to 60, and otherwise a public code |
| `ParserClient.ParserReplies` | internal/server/parser_client.go:117-178 | case by case the reply to the caller for every failed exchange with the broker: refused, timed out, cancelled, too large, each status, each code of the broker |
| `ParserClient.OcrReplies` | internal/server/vlm.go:161-196 | case by case the code for a failed VLM call: cancelled, timed out, the codes by status of its first API error, unreachable |
| `ParserClient.OtherReplies` | internal/server/main.go:257-380 | the reply for a malformed parser answer, a missing VLM client, an abandoned call and an ended pool |
| `ParserClient.CodeTrip` | cmd/parserd/main.go:153-159 | broker to router to caller: the specific codes arrive unchanged, every other failure arrives as the stage, a busy broker as backpressure |
| `ParserClient.DocumentTrip` | internal/server/parser_client.go:143-177 | a parsed document arrives unchanged or is refused as too large |
| `ParserRun.LimitedBuffer.Write` | internal/parser/runner.go:175-191 | each write reports its full length and appends what still fits; the signal closes at the first write that does not fit |
| `ParserRun.FeedIsPrefix` | internal/parser/runner.go:163-191 | after any sequence of writes the buffer has the first min(limit, total) bytes and the signal was closed once if total exceeds limit, else never |
| `ParserRun.RunParserProcess` | internal/parser/runner.go:78-126 | on every course of the select: the result, one reap of a started child, one kill unless the child ended by itself |
| `ParserRun.OutputsAreStreams` | internal/parser/runner.go:88-93 | the captured streams have the data of every write of the child to them, each where the ones before it end, and nothing else |
| `ParserRun.RunFailsIff` | internal/parser/runner.go:78-126 | a run fails exactly if the child could not be started, the select took the end of the context, more than the limit was sent to stdout or more than 1 MiB to stderr, time was up at the end, or Wait failed |
| `ParserRun.RunCodeIsCode` | internal/parser/runner.go:106-126 | and with which code each of these failures is reported |
| `ParserRun.SuccessIsComplete` | internal/parser/runner.go:106-126 | no error only with success of the child, its complete stdout, and both streams within limits |
| `ParserRun.WellBehavedSucceeds` | internal/parser/runner.go:106-126 | a child within its limits and time is never refused |
| `ParserRun.OverflowNeverSucceeds` | internal/parser/runner.go:110-118 | output over a limit is never returned, whichever select case fired |
| `ParserRun.RunToCaller` | internal/parser/runner.go:78-126 | the verdict of a run, across the process boundary and any wrapping, as the caller sees it |
| `Pages.StepKeepsFan` | internal/server/vlm.go:286-306 | every step of every goroutine keeps: a key is waiting, calling or answered, and called at most once |
| `Pages.VlmParallelMixed` | internal/server/vlm.go:282-308 | in every interleaving exactly one answer for each key, from its own call or from the ended context |
| `Pages.EveryPageClassified` | internal/server/convert.go:91-101 | with distinct numbers every page is either scanned or carries its own text |
| `Pages.ImagesOfPages` | internal/server/convert.go:138-142 | by page number: exactly the rendered pages have a picture, and it is the last one rendered for that page |
| `Pages.JoinIsJoined` | internal/server/convert.go:157-157 | the joined text has each section at its place, the separator between every two and nothing else |
| `Pages.ConvertRaw` | internal/server/convert.go:163-171 | section i is the text of page i, for pages 1 to n |
| `Pages.ConvertImages` | internal/server/convert.go:133-160 | pages 1 to n in order with text, image and scan flag |
| `Pages.AssembleVlm` | internal/server/convert.go:187-214 | section i is the answer for page i; otherwise the error of the first page without one |
| `Pages.ConvertVlm` | internal/server/convert.go:174-216 | every rendered page is sent for OCR unless the context ends first, each once and nothing else; the document is assembled from the answers of these calls |
| `Pages.VlmSections` | internal/server/convert.go:187-214 | section i is what the call for page i with the image of page i answered; otherwise the error is that of the first page that was not rendered, whose call failed or was not made |
| `Pages.Absorb` | internal/server/convert.go:298-324 | in any map order the same texts and descriptions result, and an error is reported exactly if some OCR answer failed |
| `Pages.ConvertText` | internal/server/convert.go:219-270 | the rendered scans are sent, each once, and nothing is sent without scans; the document is made from what these calls answered |
| `Pages.ConvertVision` | internal/server/convert.go:274-342 | every rendered page is sent once, scans for OCR and the others for a description; the document is made from what these calls answered |
| `Pages.OcrOnlyForScans` | internal/server/convert.go:231-236 | in mode text the VLM is called for the scanned and rendered pages only, once each, and for all of them unless the context ends |
| `Pages.VisionSends` | internal/server/convert.go:285-297 | in mode vision it is called for the rendered pages only, once each, and for all of them unless the context ends |
| `Pages.TextSections` | internal/server/convert.go:231-261 | in mode text born-digital pages are verbatim and not sent, a rendered scan is the answer of its own call, another scan is empty; a failure is that of the call of a scanned page, or of the context before it |
| `Pages.VisionSections` | internal/server/convert.go:290-333 | in mode vision born-digital text begins its section, followed by the description exactly if the call was made, succeeded and is worth keeping; a rendered scan is the answer of its own call, another scan is empty |
| `Pages.ConvertPdf` | internal/server/convert.go:87-130 | every mode page by page: what section i is in terms of the text layer, of the picture rendered for page i and of the calls made with it, which pages are sent, and which failure a failed conversion reports; the Markdown is the sections joined by separators |

## Left out

- TableText.TableRoundTrip: the reader splits rows at unescaped pipes and undoes that escape only; a full Markdown reader would also interpret backslashes and other inline syntax inside cells. It keeps the spaces around a cell, since cells are trimmed before they are rendered and the renderer adds none.
- Pages.VlmParallelMixed: has no gate of its own; a goroutine may start at any time. The gate and its capacity are part of WorkerPool and Admission.
- Pages.ConvertPdf: takes page numbers 1 to n in order, as the PDF parser assigns them; the separate modes are stated for any numbers.
- Markdown.WriteColumn: fences are those the state machine writes; a line whose own text is a fence marker is text to the model.
- ColumnBoxes.ColumnBoxes: starts from the collected text boxes; the collection itself (margins, first line direction, blank lines) is not modelled.
- DetectTables.DetectCellTables: ends at the grouped cells; the rendering of each table and the filter that drops tables with few filled cells (internal/pdftomd/tables.go:76-81) need the text of the page.
- ParserClient.CallersSeePublicCodes: the pool's own context error is a cancellation, since the context of a request has no deadline; with one the reply would be the generic code (`ParserClient.PoolEndedIsPublic`).
- Repetition.TruncateRepetition: strings.TrimSpace is a parameter, since it depends on Unicode white space.
- TextColumns.CollectedCharacterColumn: the characters are given sorted and within 5 of the sides; the grouping of horizontal rules into tables and the filter on filled cells are not modelled.
- TableGrid.FillGrid: the filter on filled cells and the trim after filling are not modelled.
- Floating point: coordinates are reals, so rounding error, infinities and NaN are not modelled.
- The parser slots of the broker (cmd/parserd/main.go:161-172): one more bounded gate with a timer, the same accounting as the active gate of Admission.
- normalizeExtractResult (internal/server/parser_client.go:97-103): fills an empty page text from its Markdown field.
- ReconstructLinesInClip (internal/pdftomd/lines.go:27-145): grouping of raw lines by block and baseline.
- pageToMarkdown and ConvertDocument: choice between overlapping tables and joining of columns.
- headers.go and format.go: header sizes, bullets and span formatting are parameters of Markdown.
- The MuPDF bindings, the Python parser, sockets, HTTP, multipart and JSON, metrics, logging, and real system calls (Landlock, resource limits, process start and kill).
- The health clock and re-initialisation of the VLM client: wall time and two independent atomics.
- Environment bounds, file names, extension checks and nextPow2: only easy members.
