# my-engineer-site, modelled in Dafny

This project models the logic inside the portfolio site `my-engineer-site`.

- **The project-relationship graph** (`ProjectGraph.tsx`).
  - `getLinks` compares every pair of projects `i < j`. The shared list is `i`'s technologies that also occur in `j`'s list, in `i`'s order. It pushes a link `{source, target, strength, sharedTech}` whenever that list is non-empty.
  - The link force pulls linked nodes toward a target distance of `120 - (strength - 1) * 30`.
  - Each node is a shallow copy of its project. The drag handlers pin a node (`fx`, `fy`) while it is dragged and release it at the end. They also raise and lower the simulation's `alphaTarget`.
  - Clicking a node selects its project for the detail modal. Clicking the background or closing the modal clears the selection.
- **The comet cursor** (`CometCursor.tsx`).
  - Every mouse move prepends the pointer position to a history that keeps at most ten entries.
  - The main dot is drawn at the newest position, or at (-100, -100) before the first move. The trail is every entry but the newest, in order.
- **Click sparkles** (`SparkleEffect.tsx`). Each click appends a sparkle. A timer later filters out the sparkles carrying that click's id.
- **The project catalogue** (`projects.ts`): the `Project` record and the four shipped projects.

## Layout

- `filtering.dfy` (module `Filtering`) models the array `filter` used by `getLinks` and by the sparkle removal, and proves its laws once, generically:
  - membership;
  - snoc and append;
  - multiplicity;
  - no repeats in, no repeats out;
  - an all-passing list is unchanged, and only then keeps its length.
- `projects.dfy` (module `ProjectData`) holds the `Project` datatype and the shipped list.
  - `x` and `y` are optional.
  - `fx` and `fy` have three states: absent, `null`, or a number (`Pin = Unset | Null | Fixed`).
- `project_graph.dfy` (module `ProjectGraph`) holds the links, the distance formula, and the `Node` and `Graph` classes.
  - `Links(ps)` specifies `getLinks`. It first lists every pair the two loops visit, in visiting order (`AllPairs`). It keeps the pairs whose shared list is non-empty, and maps each kept pair to its link record.
  - `GetLinks` is the nested loop itself, proved equal to `Links`. Its invariants use `PushedUpTo` and `PushedRows`, which describe the list the loops have built so far. `KeptBefore` and `KeptInRows` give the same description over index pairs.
  - The properties of `getLinks` are lemmas about `Links`.
- `comet_cursor.dfy` (module `CometCursor`) holds the history update as a function and the component as a class. A ghost record of every move ties the history to the latest ten moves.
- `sparkle_effect.dfy` (module `SparkleEffect`) holds remove-by-id, its laws, and the component as a class.
- `shipped_graph.dfy` (module `ShippedGraph`) holds the facts about what `getLinks` yields on the shipped list.

Coordinates are `real`. `event.active` is a natural number, the count of other active gestures; JavaScript treats 0 as falsy.

The drag handlers and the tick handler clamp nothing, and drag end always releases the pin.

## Model

| member | source | states |
|---|---|---|
| Filtering.Filter | my-engineer-site/src/components/ProjectGraph.tsx:22 | the filtered list is never longer than its input; its members are characterised by `FilterMembers` |
| Filtering.FilterMembers | my-engineer-site/src/components/ProjectGraph.tsx:22 | an element is in the filtered list iff it is in the input and passes the test |
| Filtering.FilterSnoc | my-engineer-site/src/components/ProjectGraph.tsx:22 | filtering `s + [x]` is filtering `s` and then keeping `x` iff it passes the test |
| Filtering.FilterAppend | my-engineer-site/src/components/ProjectGraph.tsx:22 | filtering distributes over concatenation, so the survivors keep their order |
| Filtering.FilterMultiset | my-engineer-site/src/components/ProjectGraph.tsx:22 | each passing element keeps its multiplicity; every other element is dropped |
| Filtering.FilterDistinct | my-engineer-site/src/components/ProjectGraph.tsx:22 | a list without repeats filters to a list without repeats |
| Filtering.FilterAll | my-engineer-site/src/components/SparkleEffect.tsx:23 | when every element passes, filtering returns the input unchanged |
| Filtering.FilterLength | my-engineer-site/src/components/SparkleEffect.tsx:23 | filtering keeps the length iff every element passes |
| Filtering.DistinctCard | my-engineer-site/src/components/ProjectGraph.tsx:27 | a list without repeats is as long as the set of its elements |
| ProjectData.ShippedIdsDistinct | my-engineer-site/src/data/projects.ts:16-41 | there are four shipped projects with pairwise distinct ids |
| ProjectData.ShippedTechNoDuplicates | my-engineer-site/src/data/projects.ts:16-41 | every shipped project lists four technologies, none twice |
| ProjectData.ShippedUnpinned | my-engineer-site/src/data/projects.ts:12-13 | every shipped project starts with both pins absent, so none is pinned |
| ProjectGraph.SharedTech | my-engineer-site/src/components/ProjectGraph.tsx:22 | the shared list is no longer than the first list, and each of its entries occurs in both lists |
| ProjectGraph.SharedTechSpec | my-engineer-site/src/components/ProjectGraph.tsx:22 | the shared list holds exactly the technologies in both lists, each as often as in the first list; it is no longer than the first list |
| ProjectGraph.SharedTechOfFour | my-engineer-site/src/components/ProjectGraph.tsx:22 | for a four-entry list the shared list is the entries found in the second list, in order |
| ProjectGraph.SharedIffOverlap | my-engineer-site/src/components/ProjectGraph.tsx:22-23 | the shared list is non-empty iff the two lists have a technology in common |
| ProjectGraph.SharedTechDistinct | my-engineer-site/src/components/ProjectGraph.tsx:22 | a first list without repeats gives a shared list without repeats, as long as the set of common technologies |
| ProjectGraph.RowOfIff | my-engineer-site/src/components/ProjectGraph.tsx:21 | before reaching `j`, the pass for `i` has visited exactly the pairs `(i, c)` with `i < c < j` |
| ProjectGraph.PairsBeforeIff | my-engineer-site/src/components/ProjectGraph.tsx:20-21 | the first `i` outer passes visit exactly the pairs `(r, c)` with `r < i` and `r < c < n` |
| ProjectGraph.PairsBelowClosedForm | my-engineer-site/src/components/ProjectGraph.tsx:20-21 | the first `i` outer passes visit `i(2n - i - 1)/2` pairs |
| ProjectGraph.RowOfInOrder | my-engineer-site/src/components/ProjectGraph.tsx:21 | one pass of the inner loop visits its pairs in increasing order |
| ProjectGraph.PairsBeforeInOrder | my-engineer-site/src/components/ProjectGraph.tsx:20-21 | the loops visit pairs in lexicographic order |
| ProjectGraph.FilterInOrder | my-engineer-site/src/components/ProjectGraph.tsx:23 | keeping only some pairs preserves lexicographic order |
| ProjectGraph.LinkedAmong | my-engineer-site/src/components/ProjectGraph.tsx:23 | every kept pair comes from the input and has `row < col < n` |
| ProjectGraph.LinkedAmongIff | my-engineer-site/src/components/ProjectGraph.tsx:23 | a pair is kept iff it is in the input and its shared list is non-empty |
| ProjectGraph.EmittedPairsIff | my-engineer-site/src/components/ProjectGraph.tsx:20-23 | `(i, j)` gets a link iff `i < j < n` and some technology of `i` occurs in `j`'s list |
| ProjectGraph.EmittedPairsInOrder | my-engineer-site/src/components/ProjectGraph.tsx:20-30 | links come out in lexicographic `(i, j)` order, so no index pair is emitted twice |
| ProjectGraph.Links | my-engineer-site/src/components/ProjectGraph.tsx:18-34 | there is one link per emitted index pair; `EmittedPairsIff`, `LinkShape` and `GetLinks` state which pairs and what each link holds |
| ProjectGraph.LinkCount | my-engineer-site/src/components/ProjectGraph.tsx:18-34 | there are at most `n(n-1)/2` links, and none for zero or one project |
| ProjectGraph.LinkShape | my-engineer-site/src/components/ProjectGraph.tsx:24-29 | each link joins `ps[i]` to `ps[j]` for related `i < j`; its shared list is `i`'s list filtered by `j`'s, holding exactly the common technologies; its strength is the list's length, at least 1 |
| ProjectGraph.LinkStrengthCountsShared | my-engineer-site/src/components/ProjectGraph.tsx:27 | when no project repeats a technology, a link's strength is the number of distinct technologies its projects share |
| ProjectGraph.LinkEmitted | my-engineer-site/src/components/ProjectGraph.tsx:23-29 | every pair `i < j` with a common technology gets its link |
| ProjectGraph.NoSelfLinks | my-engineer-site/src/components/ProjectGraph.tsx:20-21 | with distinct ids, no link joins a project to itself |
| ProjectGraph.NoDuplicatePairs | my-engineer-site/src/components/ProjectGraph.tsx:20-21 | with distinct ids, no unordered pair of projects is linked twice, in either orientation |
| ProjectGraph.KeptBeforeIsFilter | my-engineer-site/src/components/ProjectGraph.tsx:20-30 | at every point of the two loops, the kept pairs are the visited pairs that pass the test, in visiting order |
| ProjectGraph.KeptInRowsIsFilter | my-engineer-site/src/components/ProjectGraph.tsx:20-30 | after `i` outer passes, the kept pairs are the pairs of those passes that pass the test |
| ProjectGraph.CompareStep | my-engineer-site/src/components/ProjectGraph.tsx:22-29 | one comparison keeps `(i, j)` exactly when the shared list is non-empty and appends exactly that pair's link |
| ProjectGraph.PushedUpToSpec | my-engineer-site/src/components/ProjectGraph.tsx:20-30 | at every point of the loops, the links pushed so far are the link records of the kept pairs |
| ProjectGraph.PushedRowsSpec | my-engineer-site/src/components/ProjectGraph.tsx:20-32 | after `i` outer passes, the pushed links are the link records of the pairs kept in those passes |
| ProjectGraph.GetLinks | my-engineer-site/src/components/ProjectGraph.tsx:18-34 | the nested loops return exactly `Links(projects)` |
| ProjectGraph.LinkDistance | my-engineer-site/src/components/ProjectGraph.tsx:77 | the distance is a multiple of 30; it is 120 for strength 1 and lies between 30 and 120 for strengths 1 to 4 |
| ProjectGraph.LinkDistanceSteps | my-engineer-site/src/components/ProjectGraph.tsx:77 | the distance is 120 for strength 1, drops by 30 per extra shared technology, and strictly decreases as strength grows |
| ProjectGraph.LinkDistanceRange | my-engineer-site/src/components/ProjectGraph.tsx:77 | when no project lists more than four technologies, every link's distance lies between 30 and 120 |
| ProjectGraph.Node.Copy | my-engineer-site/src/components/ProjectGraph.tsx:55 | a node copy carries every field of its project |
| ProjectGraph.Graph.constructor | my-engineer-site/src/components/ProjectGraph.tsx:55-56 | one fresh, distinct copy per project, in input order; links are `getLinks` of the projects; nothing is selected |
| ProjectGraph.Graph.DragStart | my-engineer-site/src/components/ProjectGraph.tsx:59-63 | `alphaTarget` becomes 0.3 only when no other gesture is active; each pin is set to the node's coordinate when that is set and to 0 when it is not |
| ProjectGraph.Graph.Drag | my-engineer-site/src/components/ProjectGraph.tsx:64-67 | the node is pinned at the pointer |
| ProjectGraph.Graph.DragEnd | my-engineer-site/src/components/ProjectGraph.tsx:68-72 | `alphaTarget` becomes 0 only when no other gesture is active; both pins become null, so the node is free |
| ProjectGraph.Graph.ClickNode | my-engineer-site/src/components/ProjectGraph.tsx:129-132 | the clicked node becomes the selection |
| ProjectGraph.Graph.ClickBackground | my-engineer-site/src/components/ProjectGraph.tsx:164 | a background click clears the selection |
| ProjectGraph.Graph.CloseModal | my-engineer-site/src/components/ProjectGraph.tsx:211 | closing the modal clears the selection |
| ProjectGraph.CompleteDrag | my-engineer-site/src/components/ProjectGraph.tsx:58-72 | a whole gesture with no other gesture active leaves the node unpinned and the simulation target at rest; the handlers write neither `x` nor `y` |
| CometCursor.Pushed | my-engineer-site/src/components/CometCursor.tsx:12 | after a move the history has `min(old + 1, 10)` entries, the new position first, then the old entries in order; only the oldest is dropped |
| CometCursor.ReplayKeepsLatest | my-engineer-site/src/components/CometCursor.tsx:10-14 | after `n` moves the history is the latest `min(n, 10)` moves, newest first |
| CometCursor.MainDot | my-engineer-site/src/components/CometCursor.tsx:26-27 | the main dot is at the newest position, or at (-100, -100) when there is none |
| CometCursor.Trail | my-engineer-site/src/components/CometCursor.tsx:34 | the trail has `max(len - 1, 0)` dots, positions 1 onward in order |
| CometCursor.TrailOfMoves | my-engineer-site/src/components/CometCursor.tsx:26-34 | after at least one move, the main dot is at the last move and the trail is the previous at most nine moves, newest first |
| CometCursor.Comet.constructor | my-engineer-site/src/components/CometCursor.tsx:6-7 | the history and the rendered positions start empty |
| CometCursor.Comet.MouseMove | my-engineer-site/src/components/CometCursor.tsx:10-14 | the history becomes the prepend-and-keep-ten of the old one, the rendered positions equal it, and the history stays the latest ten moves |
| SparkleEffect.Without | my-engineer-site/src/components/SparkleEffect.tsx:23 | a sparkle survives removal iff it was present and carries a different id; removal never lengthens the list |
| SparkleEffect.WithoutAppend | my-engineer-site/src/components/SparkleEffect.tsx:23 | removal distributes over concatenation, so survivors keep their order |
| SparkleEffect.WithoutAbsent | my-engineer-site/src/components/SparkleEffect.tsx:23 | removing an id no sparkle carries leaves the list unchanged |
| SparkleEffect.WithoutLength | my-engineer-site/src/components/SparkleEffect.tsx:23 | removal keeps the length iff no sparkle carries the id |
| SparkleEffect.WithoutKeepsDistinct | my-engineer-site/src/components/SparkleEffect.tsx:23 | removal keeps ids distinct |
| SparkleEffect.AppendThenRemove | my-engineer-site/src/components/SparkleEffect.tsx:20-23 | a click with a fresh id followed by that id's removal restores the list |
| SparkleEffect.Render | my-engineer-site/src/components/SparkleEffect.tsx:33-41 | one element per sparkle, in order, keyed by its id at its click position; distinct ids give distinct keys |
| SparkleEffect.Sparkles.constructor | my-engineer-site/src/components/SparkleEffect.tsx:11 | the list starts empty |
| SparkleEffect.Sparkles.HandleClick | my-engineer-site/src/components/SparkleEffect.tsx:14-20 | exactly one sparkle is appended at the end with the click's coordinates; earlier sparkles are unchanged; a fresh id keeps ids distinct |
| SparkleEffect.Sparkles.Expire | my-engineer-site/src/components/SparkleEffect.tsx:22-24 | the list becomes its sparkles with a different id, in order; none carries the id afterwards; distinct ids stay distinct |
| ShippedGraph.DevboardSensorNode | my-engineer-site/src/data/projects.ts:21-27 | the devboard and the sensor node share exactly `["PCB Design"]` |
| ShippedGraph.DevboardFirmwareUpdater | my-engineer-site/src/data/projects.ts:21-39 | the devboard and the firmware updater share exactly `["Embedded C"]` |
| ShippedGraph.SensorNodeFirmwareUpdater | my-engineer-site/src/data/projects.ts:27-39 | the sensor node and the firmware updater share nothing |
| ShippedGraph.DevboardDashboard | my-engineer-site/src/data/projects.ts:21-33 | the devboard and the cloud dashboard share nothing |
| ShippedGraph.SensorNodeDashboard | my-engineer-site/src/data/projects.ts:27-33 | the sensor node and the cloud dashboard share nothing |
| ShippedGraph.DashboardFirmwareUpdater | my-engineer-site/src/data/projects.ts:33-39 | the cloud dashboard and the firmware updater share nothing |
| ShippedGraph.ShippedTechLists | my-engineer-site/src/data/projects.ts:16-41 | the shipped list holds the four technology lists in file order |
| ShippedGraph.DevboardRow | my-engineer-site/src/components/ProjectGraph.tsx:20-30 | the devboard's pass keeps the pairs (0, 1) and (0, 3) |
| ShippedGraph.SensorNodeRow | my-engineer-site/src/components/ProjectGraph.tsx:20-30 | the sensor node's pass keeps no pair |
| ShippedGraph.LaterRows | my-engineer-site/src/components/ProjectGraph.tsx:20-30 | the last two passes keep no pair |
| ShippedGraph.ShippedPairs | my-engineer-site/src/components/ProjectGraph.tsx:18-34 | on the shipped list exactly the pairs (0, 1) and (0, 3) get links |
| ShippedGraph.ShippedLinks | my-engineer-site/src/components/ProjectGraph.tsx:18-34 | on the shipped list `getLinks` yields exactly two links of strength 1: devboard to sensor node over PCB Design, and devboard to firmware updater over Embedded C |
| ShippedGraph.CloudDashboardIsolated | my-engineer-site/src/data/projects.ts:29-34 | the cloud dashboard is an end of no link |
| ShippedGraph.ShippedLinkStrengths | my-engineer-site/src/components/ProjectGraph.tsx:27 | on the shipped list each link's strength is the number of distinct technologies its projects share |
| ShippedGraph.ShippedLinkDistances | my-engineer-site/src/components/ProjectGraph.tsx:77 | both shipped links have target distance 120 |

## Left out

- The d3 force simulation is not modelled: forces, ticks, alpha decay and the positions it writes into `x` and `y`. Of the simulation, only the `alphaTarget` value the drag handlers set is kept, as a field. `.restart()` is not modelled.
- CompleteDrag: while a pin is set, every tick of the unmodelled simulation (restarted at `ProjectGraph.tsx:60`) moves the node onto its pins, so in the program a dragged node ends where it was dropped. The model does not capture this: its claim is only that the handlers themselves write neither `x` nor `y`.
- In the source, `getLinks` runs on the node copies (`ProjectGraph.tsx:55-56`), so a link's `source` and `target` are the mutable node objects from the moment the link is pushed. In the model, links hold project values taken from the input list. The copies carry the same technology lists, so the derived links have the same pairs, shared lists and strengths. The model does not capture the aliasing between a link's ends and the mutable nodes.
- Rendering is not modelled: SVG lines, circles, labels, the grid pattern, transitions, stroke widths, opacities, the tooltip and its placement. These are floating-point and DOM concerns.
- The effect cleanup (stopping the simulation, removing elements) and event-listener registration and removal are not modelled. Each handler is modelled as a method that the caller invokes.
- SparkleEffect's 600 ms timer and its `Date.now() + Math.random()` id are not modelled. Removal is the method `Expire`, which takes the id; ids are values supplied to `HandleClick`.
- Sparkles.HandleClick: the model does not assume that the drawn id is fresh. It keeps ids distinct only when the id is fresh, because the source relies on a random value for that.
- The comet trail's fading colour and the scale animations are not modelled (floating point, framer-motion).
- JavaScript numbers are modelled as `real` for coordinates and as `nat`/`int` for strengths and distances; strengths are list lengths. NaN and infinities are not modelled.
- EarthGlobe.tsx, EarthGround.tsx, ProjectModel.tsx, App.tsx, Footer.tsx, background3d.tsx and tailwind.config.js are not part of this model.
