# windigo core in Dafny

A model of the logic under windigo, a terminal widget toolkit written in Go. The goroutine and terminal plumbing is left out. Four parts are modelled, each as immutable datatypes and pure functions:

- **Geometry and window layout** (`points.dfy`, `lines.dfy`, `regions.dfy`, `window.dfy`, `layout_scenarios.dfy`).
  - Axis-aligned lines: classification, point-on-segment tests, intersection and junction ("nexus") classification.
  - Rectangular regions and their ordering, with the standard library sort of at most 12 regions modelled as the insertion sort Go runs from release 1.19 on.
  - The window layout: `AddLine` splits every region the new line crosses; `AddBorder` shrinks the regions.
- **Widget state machines** (`events.dfy`, `fsm.dfy`).
  - Dense state ids with an append-only transition list.
  - `NextState` resolves by the first match in insertion order.
  - The round-robin machine `NewFSM` builds, and the output events state functions return.
- **The object tree** (`windi.dfy`, module `Tree`).
  - Objects are held in a map from ids to records.
  - Management is once-only, and channel pairs are wired crosswise; channels are integer ids.
  - Cell writes and clickable regions are translated up the parent chain to the root window.
- **Input routing** (`screen.dfy`).
  - Routing of one terminal event is a pure decision: which channels receive which event values.
  - Keyboard focus can be replaced.

`results.dfy` holds the `Option` and `Result` types.

## Behaviour one might not expect

The model reproduces what the code does, including these behaviours, each pinned down by a lemma:

- **Diagonal lines.** A line between two points with different X is labelled Horizontal even when it is diagonal. For such a line, `isOn` accepts the first ordered endpoint but not the second (`Lines.DiagonalLineMissesEndpoint`).
- **Nexus argument order.** `nexus` only classifies junctions when called as (horizontal, vertical); it is not symmetric (`Lines.NexusNotSymmetric`).
- **Nexus at negative coordinates.** After a failed intersection, `nexus` probes around the sentinel point (-1, -1). So at negative coordinates it can report a junction where the lines do not meet, even with a vertical first argument (`Lines.NexusSentinelCorner`). On lines with non-negative coordinates, as in every window layout, the probe cannot match: a junction is reported only where the two segments meet (`Lines.NexusAtIntersection`), and never with the vertical line first (`Lines.NexusVerticalFirstIsNone`).
- **The 80×24 example.** The comment on `AddBorder` (window.go:80-81) splits an 80×24 window with a horizontal line at row 12. `AddLine` draws the new line across its two reference lines, so a horizontal line needs the left and right edges as references; the top and bottom edges would give a vertical split. With the left and right edges the split gives the two regions of 80×12 the comment describes (`LayoutScenarios.FirstSplit`).
- **Order after the second split.** After the second split of that example the regions are sorted as west, south, east, not top to bottom (`LayoutScenarios.SecondSplit`).
- **Placement of the second half.** The southern half of a horizontal split starts at row `r.Y + n`, while the eastern half of a vertical split starts at column `n`. In a region that does not start at row 0, the southern half lands outside the window (`LayoutScenarios.SouthHalfMisplaced`).
- **Cumulative translation in routing.** A mouse event's coordinates are rewritten relative to each region it hits, and later regions are tested against the rewritten coordinates. A region far from the click can therefore receive it (`Screen.SpuriousSecondHit`).
- **`Yin`/`Yang` after `Manage`.** These return the first channel pair of an object. That pair links the object to its parent only if the object had no children before it was managed itself (`Tree.EarlierLinkShadowsParent`).
- **Cycles.** `Manage` only checks the child's flag, so two objects can manage each other (`Tree.ManageCanBuildCycle`). The recursive translations require that the parent chain ends.
- **No strict weak order.** The region ordering is a strict product order, not a strict weak order (`Regions.LessNotStrictWeakOrder`). The sort therefore guarantees only a permutation with no adjacent pair out of order.

## Model

| member | source | states |
|---|---|---|
| Points.Abs | regions.go:99-104 | the result is non-negative, is `i` or `-i`, and is `i` when `i >= 0` |
| Points.AbsOfNegation | regions.go:99-104 | `abs(i) == abs(-i)` |
| Points.OutlineCharAt | lines.go:20-37 | an integer names an outline character exactly when it is in 0..10, and that character's index is the integer |
| Points.OutlineIndexRoundTrip | lines.go:20-37 | index and outline character round-trip |
| Points.NexusCodeSelectsGlyph | regions.go:10-25 | every junction kind's code is the outline-character index of its glyph (slots 4 and 5 skipped); only None has code 11, the number of outline characters |
| Points.NexusCodeInjective | regions.go:12-25 | distinct junction kinds have distinct codes |
| Points.DefaultRunesDistinct | lines.go:6-41 | the default outline runes are pairwise distinct |
| Lines.NewLine | lines.go:50-68 | endpoints stored as given; UnOriented iff the points are equal; Vertical iff same X with distinct points; Horizontal iff the X coordinates differ, diagonals included |
| Lines.ParallelOrthogonalDichotomy | lines.go:130-153 | parallel and orthogonal are symmetric and exclusive, both false with an UnOriented line, and exactly one holds for two oriented lines |
| Lines.Distance | lines.go:112-128 | fails exactly for non-parallel lines; otherwise non-negative, and zero iff the lines are coincident |
| Lines.DistanceSymmetric | lines.go:112-128 | distance does not depend on argument order |
| Lines.EndPoints | lines.go:155-170 | returns the two stored points, ascending in X for horizontal and in Y for vertical lines, and `(P2, P1)` for UnOriented ones |
| Lines.LineOrderProperties | lines.go:172-200 | GreaterThan and LessThan are irreflexive; for same-orientation lines `a > b` iff `b < a`, and not both `a > b` and `b > a` |
| Lines.IsOnCharacterized | lines.go:202-216 | a point is on an oriented line iff it shares the first endpoint's fixed coordinate and lies in the closed range between the endpoints; nothing is on an UnOriented line |
| Lines.EndPointsOnLine | lines.go:202-216 | the first ordered endpoint is on its line; the second is on it iff the line is really axis-aligned |
| Lines.DiagonalLineMissesEndpoint | lines.go:50-68 | the diagonal (0,0)-(3,3) is Horizontal and (3,3) is not on it |
| Lines.Intersection | lines.go:218-245 | parallel lines fail; otherwise a failure means the segments do not meet, and a success is a point on both segments |
| Lines.IntersectionIsCommonPoint | lines.go:218-245 | for non-parallel lines, the intersection succeeds with `p` exactly when `p` lies on both segments |
| Lines.IntersectionSymmetric | lines.go:218-245 | for orthogonal lines the result does not depend on argument order |
| Lines.ClassifyMatchesArms | lines.go:270-333 | the junction kind chosen from the four probe results is the one whose arms are exactly those probes |
| Lines.Nexus | lines.go:247-334 | non-orthogonal lines give `(-1,-1,None)`, and a None result is always at (-1,-1) |
| Lines.NexusVerticalFirstIsNone | lines.go:247-334 | with a vertical first argument the result is None when the coordinates are non-negative or the lines meet |
| Lines.NexusAtIntersection | lines.go:247-334 | for non-negative coordinates, a non-None result comes only from a (horizontal, vertical) pair, at their intersection point |
| Lines.NexusCrossAndCorner | lines.go:247-334 | for a horizontal and a vertical line through a common point: if both run on through it, the junction there is Cross; if both start there and continue, it is TopLeft |
| Lines.NexusNotSymmetric | lines.go:247-334 | two crossing lines give Cross in one order and None in the other |
| Lines.NexusSentinelCorner | lines.go:247-334 | lines that do not meet can still get a corner junction at (-1,-1), in either argument order |
| Regions.NewRegion | regions.go:38-48 | the given origin and size, valid, neither outer-edge flag set |
| Regions.LessIsProductOrder | regions.go:68-96 | `Less(a,b)` iff `a.X <= b.X`, `a.Y <= b.Y` and the origins differ |
| Regions.LessIsStrictPartialOrder | regions.go:68-96 | Less is irreflexive, asymmetric and transitive |
| Regions.LessNotStrictWeakOrder | regions.go:68-96 | incomparability is not transitive, so Less is not a strict weak order |
| Regions.Swap | regions.go:64-66 | exchanges two elements, keeps the rest and the multiset of regions |
| Regions.SortRegions | regions.go:58-96 | the sorted list is a permutation of the input with no adjacent pair out of Less order |
| Regions.EdgesOfRegion | regions.go:106-129 | Top/Bottom are Horizontal, Left/Right Vertical, and each contains exactly the cells of that side |
| Regions.CornersOnEdges | regions.go:106-129 | the four corners lie on the two edges meeting there |
| Window.AddEdges2Lines | window.go:149-168 | refused when lines exist, with nothing changed; otherwise sets exactly the four frame lines |
| Window.NewWindow | window.go:43-57 | window at the region's origin and size, no border, that one region, and the frame lines |
| Window.RootWindow | windi.go:216-239 | the root window holds the whole-screen region with both outer flags and the frame lines; the second edge initialisation is refused |
| Window.EdgeLinesAreWindowEdges | window.go:393-422 | the recorded frame lines are the window's left, right, top and bottom edges; a one-cell-high window records its left and right edges, and a one-cell-wide window its top and bottom edges, as UnOriented |
| Window.GetRegion | window.go:170-177 | a region exactly for an index in range, and it is the stored one |
| Window.HorizLines | window.go:424-436 | keeps exactly the horizontal lines |
| Window.VertLines | window.go:438-448 | keeps exactly the vertical lines |
| Window.LineFiltersPreserveOrder | window.go:424-448 | both filters distribute over concatenation, so they keep the original order |
| Window.LineFiltersPartition | window.go:424-448 | the two filters never keep more lines than there are, and split a list of oriented lines exactly |
| Window.AddBorder | window.go:94-122 | a second call is refused with nothing changed; the first sets the border and shifts each region by (+1,+1), shrinking W by 2 if RightMost else 1 and H by 2 if BottomMost else 1 |
| Window.AddBorderOnce | window.go:94-122 | adding a border twice is refused the second time |
| Window.Halves | window.go:236-284 | the two halves are valid, west/north keeps the origin, sizes add up to the original, east starts at X = n, south at Y = r.Y + n, and outer flags are inherited as the code sets them |
| Window.HalvesTiling | window.go:245-278 | west and east halves always tile the original; north and south halves are adjacent and end with the original iff it starts at row 0; an offset at the region's edge gives a zero-size half |
| Window.Marked | window.go:235-282 | the list keeps its length and every entry except for the valid flag; an entry stays valid iff it was valid and the line does not split it |
| Window.KeepValid | window.go:285-290 | only valid regions survive the filter |
| Window.KeepValidMembers | window.go:285-290 | a region survives the filter iff it is in the list and valid |
| Window.KeepValidAppend | window.go:285-290 | the filter distributes over concatenation |
| Window.KeepValidMarked | window.go:235-290 | filtering the marked list leaves exactly the regions the line does not split |
| Window.AllHalves | window.go:235-282 | every created half is valid |
| Window.AllHalvesExactly | window.go:235-282 | both halves of every split region are appended, and every appended region is a half of a split region |
| Window.AddLine | window.go:193-301 | non-parallel references or an offset outside 0..span fail with nothing changed; on success the split line is appended, all stored regions are valid, and they are a permutation of the unsplit valid regions plus the halves |
| Window.SplitLineShape | window.go:206-229 | horizontal references give a Vertical line at `lower.P1.X + n` spanning the two references' rows; vertical references give a Horizontal line at `lower.P1.Y + n` |
| Window.DividesVertical | window.go:238-245 | a vertical line splits a region iff its column is within the region and it spans the region's top and bottom rows |
| Window.DividesHorizontal | window.go:261-269 | a horizontal line splits a region iff its row is within the region and it spans the left and right columns |
| LayoutScenarios.FirstSplit | window.go:193-301 | splitting the 80×24 root at offset 12 between its left and right edges gives the north and south halves |
| LayoutScenarios.SecondSplit | window.go:193-301 | splitting the north half at column 40 leaves west, south, east in that order |
| LayoutScenarios.SouthHalfMisplaced | window.go:271-278 | splitting the south half at offset 18 creates a region at row 30, outside the 24-row screen |
| Events.RetCodeOf | fsm.go:11-18 | return codes are exactly -1..2, and decoding agrees with the constants |
| Events.RetCodeRoundTrip | fsm.go:11-18 | code and return code round-trip |
| Events.PayloadTypeOf | event.go:43-55 | payload kinds are exactly 0..4, and decoding agrees with the constants |
| Events.PayloadCodes | event.go:43-55 | payload codes are distinct, None is the largest, and code and kind round-trip |
| Events.ZeroResult | event.go:43-55 | a fresh result has Rc = Ok and kind Int, the zero values, with no payload |
| Events.NewEvent | event.go:57-62 | the event has the given type, no arguments, and a fresh result |
| Events.NewEventIgnoresArguments | event.go:57-62 | the variadic arguments do not affect the event |
| Fsm.AddState | fsm.go:184-189 | returns the previous state count, and appends the glyph and function at that index |
| Fsm.AddTransition | fsm.go:197-200 | appends one unchecked triple; nothing else changes |
| Fsm.FirstMatch | fsm.go:202-206 | the index found matches, and no earlier transition does; none found means no transition matches |
| Fsm.Lookup | fsm.go:202-206 | no result iff no transition matches; otherwise the destination of the first matching one |
| Fsm.NextState | fsm.go:202-216 | a failure keeps the current state; no-match is reported iff nothing matches; out-of-range iff the first match's destination is outside the state table; otherwise the first match's destination |
| Fsm.LookupAppend | fsm.go:197-211 | appending never changes a lookup that already had a match; otherwise the new entry decides it |
| Fsm.FirstMatchWins | fsm.go:202-211 | a transition appended after an existing match, even a valid duplicate, does not change NextState |
| Fsm.BrokenFirstMatchNotRepaired | fsm.go:207-211 | an out-of-range first match is reported although a later duplicate is valid |
| Fsm.SetState | fsm.go:218-223 | sets the current state of a present machine and nothing else; a missing machine stays missing |
| Fsm.State | fsm.go:225-230 | the current state, or -1 for a missing machine |
| Fsm.StateAfterSetState | fsm.go:218-230 | reading after setting returns the value set |
| Fsm.NoDuplicatesAppend | fsm.go:197-200 | appending a pair that has no match yet keeps the table free of duplicate pairs |
| Fsm.PrefixTable | fsm.go:88-119 | while the constructor runs, its table is the partial round-robin table, with no duplicate pairs |
| Fsm.RoundRobinTable | fsm.go:120 | closing the cycle yields the round-robin table, still without duplicate pairs |
| Fsm.NewFSM | fsm.go:69-128 | no sigils: empty tables, entry = current = -1, exit = 0; otherwise n+2 states, 4n+2 transitions without duplicate pairs, entry 0, exit 1, current 0, sigils `[s0, s0] + sigils`, and the round-robin table |
| Fsm.Run | fsm.go:202-223 | feeding return codes changes only the current state |
| Fsm.RunAppend | fsm.go:202-223 | running two code sequences one after the other is running their concatenation |
| Fsm.RoundRobinStep | fsm.go:96-120 | in a round-robin machine a step fails only for a missing entry, and otherwise reaches the table's destination |
| Fsm.RoundRobinOkIsModular | fsm.go:109-120 | Ok from active state 2+k leads to `2 + ((k+1) mod n)` |
| Fsm.AdvanceWithoutWrap | fsm.go:109-119 | j Oks from active state 2+k reach 2+k+j while no wrap occurs |
| Fsm.ActiveCycle | fsm.go:96-120 | n successive Oks return every active state to itself |
| Fsm.FailLeadsToExit | fsm.go:96-116 | Fail leads from entry and every active state to the exit state, and exit has no transitions |
| Fsm.EntryTransitions | fsm.go:96-97 | entry goes to the first active state on Ok, and has no Repeat or Nop transition |
| Fsm.ThreeSigilStart | fsm.go:96-116 | three sigils: entry's Ok gives state 2, the next Ok state 3 |
| Fsm.ThreeSigilCycle | fsm.go:96-120 | three sigils: four Oks from entry come back to state 2 |
| Fsm.ThreeSigilExit | fsm.go:96-120 | three sigils: Fail after the cycle exits, and the exit state is terminal |
| Fsm.EmptyMachineStuck | fsm.go:202-216 | a machine without transitions never moves |
| Fsm.Collect | fsm.go:149-174 | the argument loop appends integer and string arguments in order and sets the kind once, from the first of them |
| Fsm.WidgetResult | fsm.go:144-177 | an output event with Rc = rc, the integer and string arguments in order, and the kind of the first of them (None if there is none) |
| Fsm.FirstPayloadCharacterized | fsm.go:149-160 | the kind is None iff no argument is an integer or string; otherwise it is the kind of the first such argument |
| Fsm.WidgetResultAppend | fsm.go:149-160 | payloads of concatenated argument lists concatenate, and the first list decides the kind when it has a payload |
| Fsm.IntsAppend | fsm.go:149-160 | the integer payload of concatenated argument lists is the concatenation of their integer payloads |
| Fsm.StringsAppend | fsm.go:149-155 | the string payload of concatenated argument lists is the concatenation of their string payloads |
| Fsm.FirstPayloadAppend | fsm.go:149-160 | the kind of concatenated argument lists is the first list's kind unless that is None, then the second's |
| Fsm.BuiltinResult | fsm.go:76-84 | entry and exit report Ok with payload 0; an active state reports Repeat with payload 1 on a left click and Nop with payload 0 otherwise |
| Fsm.ActiveStateHoldsItself | fsm.go:78-116 | an active state's own results never move it in the round-robin machine |
| Screen.RequestFocus | screen.go:40-46 | given a newly made channel, installs it as the keyboard channel, open, and closes the previous one, if any; nothing else changes |
| Screen.MouseDeliveries | screen.go:64-77 | no more sends than regions; each send goes to a registered channel with coordinates inside that region's size; kind and key are unchanged |
| Screen.Translate | screen.go:66-74 | a hit region makes the coordinates relative to itself, so they fall inside its size; kind and key are unchanged |
| Screen.CurCons | screen.go:64-77 | rewriting the coordinates region by region from the first is the same as the fold over all registered regions |
| Screen.MouseDeliveriesSnoc | screen.go:64-77 | each further region adds at most one send, after all earlier ones, to its own channel, when the event as rewritten by every earlier hit lies inside it, with the coordinates made relative to it |
| Screen.Route | screen.go:48-84 | keys go to the keyboard channel if there is one and are dropped otherwise; mouse events get exactly the sends of the region walk; an error event stops routing; other kinds are ignored |
| Screen.RouteAllStopsAtError | screen.go:78-80 | nothing after an error event is routed |
| Screen.MouseDeliveredIffSomeHit | screen.go:64-77 | a mouse event is delivered somewhere iff some region contains its original coordinates |
| Screen.FirstDeliveryIsFirstHit | screen.go:64-77 | the first send goes to the first region in registration order that contains the click, with coordinates relative to it |
| Screen.SpuriousSecondHit | screen.go:68-75 | a click translated by one region can then hit a region it is far outside |
| Screen.OnlyNewestFocusGetsKeys | screen.go:40-63 | after two focus requests with newly made channels, the channels differ, only the newer one receives keys and is open, and the older one is closed |
| Screen.KeysDroppedWithoutFocus | screen.go:60-63 | without a keyboard channel a key event is dropped |
| Tree.WithinIsHitAtOrigin | windi.go:359-365 | Within is the half-open hit test of the object's size at the origin |
| Tree.ClickTarget | windi.go:174-193 | succeeds iff every object on the chain is managed, and then adds the positions of all non-root objects on the chain |
| Tree.CellTarget | windi.go:149-172 | an unmanaged object fails; a non-root object rejects coordinates outside its size and passes coordinates inside it to its parent, shifted by its offset; the root accepts anything; success holds exactly when every object up the chain is managed and every non-root one contains the shifted coordinates; a success lands where ClickTarget does |
| Tree.SetCell | windi.go:149-172 | the write succeeds exactly when the chain up to the root is managed and in bounds at every non-root level; on error nothing is written; on success exactly one cell is logged, at the translated position |
| Tree.RegClickable | windi.go:174-193 | fails iff some object on the chain is unmanaged, changing nothing; otherwise appends one region, translated and with its size unchanged, under a new channel that is returned |
| Tree.SetCellAgreesWithRegClickable | windi.go:149-193 | a successful cell write lands where a clickable region at the same coordinates is registered |
| Tree.AddComm | windi.go:367-380 | each side gets one new pair, the child's the container's pair swapped; no other object and no geometry changes |
| Tree.Manage | windi.go:403-432 | refused with nothing changed for a managed object; otherwise managed, parent set, one crosswise pair each, appended last to the children, with no geometry changed and no bounds check |
| Tree.WindowManage | window.go:451-455 | the window wrapper always reports success, whatever Manage reports, and leaves the session exactly as Manage leaves it: an already managed object alone, otherwise managed under the window with a new channel pair and appended to the window's children |
| Tree.Yin | windi.go:275-286 | fails iff unmanaged; otherwise the input end of the first pair |
| Tree.Yang | windi.go:288-299 | fails iff unmanaged; otherwise the output end of the first pair |
| Tree.InitSession | windi.go:199-246 | one managed root without parent, whose channel pair is the screen's crossed; no clickables, no focus, nothing written |
| Tree.InitRootIsRootWindow | windi.go:216-225 | the root object has the geometry of the root window's region |
| Tree.RequestFocus | screen.go:40-46 | the keyboard moves to a channel made for it, the next unused id, which is open; the previous keyboard channel is closed; the objects and the rest of the screen are unchanged |
| Tree.InitSessionGood | windi.go:199-246 | the initial session satisfies the bookkeeping invariant |
| Tree.ManageKeepsGood | windi.go:403-432 | Manage preserves the invariant: managed objects have a pair, parents exist, the channel ids of objects and screen are below the next id |
| Tree.RegClickableKeepsGood | windi.go:174-193 | registering a clickable region preserves the invariant |
| Tree.RequestFocusKeepsGood | screen.go:40-46 | a focus request preserves the invariant |
| Tree.NewestFocusOnly | screen.go:40-63 | two focus requests in a row hand out different channels; only the second receives keys and is open, and the first is closed |
| Tree.FreshChildTalksToParent | windi.go:367-432 | a child with no pairs of its own talks to its new parent through Yin/Yang |
| Tree.EarlierLinkShadowsParent | windi.go:275-299 | an object that already had a pair keeps it as Yin, which is not the parent's new output |
| Tree.ManageOnce | windi.go:403-408 | managing the same object twice is refused the second time |
| Tree.ManageCanBuildCycle | windi.go:403-421 | two unmanaged objects can manage each other, and the resulting parent chain never ends |
| Tree.CycleNeverReachesRoot | windi.go:149-193 | in a cycle of managed objects no amount of fuel reaches a root |
| Tree.RegisterThenClick | screen.go:64-77 | the first registered region receives every click inside it, with coordinates relative to the region |

## Left out

- Terminal I/O: `termbox` initialisation, modes, `PollEvent`, `Flush` and `Close`. A root cell write is recorded in a write log instead of being drawn, and events are passed in as values.
- Drawing: `drawLine`, `drawBorder`, `Refresh`, `Clear`, `Fill`, `DrawScale` and `Wprint`. They are I/O loops over `SetCell`, and `Wprint` depends on an external rune-width library.
- Concurrency: `EventMgr`'s select loop, goroutines, wait groups and the blocking of channel sends. Channels are opaque integer ids, and a send is a recorded delivery.
- Screen.MouseDeliveries: records the event value at the moment of each send. The router sends one shared pointer whose coordinates it goes on rewriting, so a receiver that reads late would see later coordinates.
- Fsm.WidgetResult: the pointer branch is not modelled. It compares the type name of a reflection wrapper with `*termbox.Event`, so as written it never sets the pass-through kind; pointer arguments count as ignored arguments.
- State-function bodies: these are opaque tokens. The three built-in ones appear only through `Fsm.BuiltinResult`, whose mouse test is a boolean parameter.
- Accessors: `Entry`, `SetEntry`, `Exit` and `SetExit` are plain field accessors, not modelled separately.
- `Init`: the terminal set-up and the start of the router are left out. The `screen.windows` list is not kept, since nothing in the core reads it.
- Glue and constants: `gadget.go`, `panel.go`, `button.go`, `gravity.go` and `elastic.go` are thin glue or enumeration constants.
- `InitObject` and `SetRegion`: field setters used by widget constructors.
- Sorting of more than 12 regions: from Go 1.19 on (pdqsort), `sort.Sort` runs plain insertion sort on at most 12 elements and other algorithms above that. Earlier releases first ran a gap-6 pass on 7 to 12 elements. Regions.SortRegions is insertion sort for every length, and its contract (a permutation with no adjacent pair out of order) is what the layout relies on.
- Error message texts, `fmt.Sprintf` calls whose results are discarded, `unsafe` pointer casts and the process-global `screen` variable. The screen is an explicit state value.
- Tree.SetCell and Tree.RegClickable: require that the parent chain from the object ends within as many steps as there are objects, and `Tree.ManageCanBuildCycle` shows that a cycle can be built. On a cycle `RegClickable` recurses forever. `SetCell` checks bounds at every non-root level, so on a cycle it either fails with an out-of-range error once the accumulated offsets leave some object's size, or recurses forever when the offsets cancel out and the coordinates stay in range. Neither outcome is modelled.
- Tree.WindowManage: drops the `o.Init()` call that window.go:453 makes after `Manage` on every path, including after a refused `Manage`. For a window or a gadget, `Init` starts another handler goroutine (concurrency, left out). For a button, `Init` registers a clickable region through `RegClickable`, so in Go a second `Manage` of a button adds a second region, which the model does not.
- Tree.Yin and Tree.Yang: require a managed object to have at least one channel pair. Without one the Go code fails with an index error; `Tree.ManageKeepsGood` shows every object managed through `Manage` has one.
- Window.AllHalves: the contract states only that the halves are valid. Which halves are created is stated by `Window.AllHalvesExactly`.
- Window.KeepValid: the contract states only that survivors are valid. Which regions survive, and in what order, is stated by `Window.KeepValidMembers`, `Window.KeepValidMarked` and `Window.KeepValidAppend`.
- Points.Abs and all coordinate arithmetic: use unbounded integers. Go's `int` is 64 bits wide, so `abs(math.MinInt64)` returns `math.MinInt64` (negative), and sums such as `r.X + r.W - 1` wrap on overflow. The model holds for coordinates whose sums stay within 64 bits, which terminal sizes never approach.
- Window.GetRegion: returns a copy of the region. Go returns a pointer into the region slice. `AddLine` replaces that slice with a newly allocated one into which it copies the sorted survivors (window.go:287-298), so a pointer kept across `AddLine` goes stale. It still shows the region as it was, possibly marked invalid by the split, and does not see later changes such as the shift `AddBorder` applies.
