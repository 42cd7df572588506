# What is modelled

The web console of the load-testing master draws its charts with Chartist and runs on core-js, zone.js and the webpack
runtime. This project models the parts of these that hold real algorithms and proves what they are for.

**Chartist** (`chartist.js`)

- `Rho.dfy`, `ScaleArithmetic.dfy`, `Bounds.dfy`: choosing the scale of an axis. The divisor search by Floyd's two
  walkers, the three ways to choose a step, narrowing the range and setting the ticks.
- `HighLow.dfy`, `Axis.dfy`: from arbitrarily nested data to places on an axis.
- `Bars.dfy`: plain and stacked bars, from the data the scale is made for to the ends of each bar on the screen.
- `Segments.dfy`, `MonotoneCurve.dfy`, `Interpolation.dfy`, `Cardinal.dfy`: splitting lines at holes, and drawing them
  straight, as cardinal splines or as monotone cubic splines.
- `Numerals.dfy`, `PathText.dfy`, `PathReading.dfy`, `SvgPath.dfy`: the path object, its printer and its parser.
- `Escaping.dfy`: escaping strings for attributes and getting them back.

**core-js and zone.js** (the polyfills bundle)

- `Ledger.dfy`, `LinkChain.dfy`, `OrderedMap.dfy`, `OrderedCollection.dfy`, `Iteration.dfy`: the ordered Map and Set
  (module `wmvG`), a key index over a doubly linked list whose iterators survive deletion. The collection is proved
  against a ledger of rows that keeps deleted ones, and the ledger against the ordered map of ECMA-262.
- `Settling.dfy`, `PromiseRuns.dfy`, `ZoneAwarePromise.dfy`: ZoneAwarePromise as a state machine over the calls of its
  resolvers and of `then`, whole runs of it, and the objects that take these steps.
- `Microtasks.dfy`: the microtask queue, its draining in batches, and the drain at the end of the outermost task.
- `ZoneTasks.dfy`, `TaskCounts.dfy`, `TaskSteps.dfy`, `ZoneTaskObjects.dfy`: the life cycle of tasks as a state machine
  with an explicit call stack, so that anything may happen between the start and the end of a run, a scheduling or a
  cancelling; whole runs of it; what every step makes of its task; and the objects that take these steps, under programs
  that make zones and tasks as they go.

**webpack runtime**

- `ModuleCache.dfy`, `ChunkLoading.dfy`: requiring modules once, and running deferred entries when their chunks are there.

`Sequences.dfy` holds what several of these need about sequences. `dafny verify dfyconfig.toml` checks everything.

# Where the code does other than one would expect

Each of these is stated with the exact condition under which the expected property holds.

- `rho` returns a divisor, not always the smallest factor that its documentation names (`Rho.NotTheSmallest`,
  `Rho.SmallestExactly`).
- The doubling loop of `getBounds` goes one step too far when a step fits to the pixel (`Bounds.DoubledTooFar`,
  `Bounds.Search.LeastPowerOfTwo`), and with `onlyInteger` a range below 1 can have a tick that is not whole
  (`Bounds.TickNotWhole`, `Bounds.WholeTicksExactly`).
- Stacking falls back to the zero point when a bar ends at coordinate 0 (`Bars.StackStartsOver`, `Bars.StackedExactly`),
  and the sums for the scale start again after a hole (`Bars.HoleHidesBar`, `Bars.SerialSumLacks`) and lack what a stack of
  both signs reaches on the way (`Bars.SumHidesStack`, `Bars.StackExactly`).
- With `fillHoles`, a discarded hole can hide that x goes back (`Segments.HoleHidesDecrease`, `Segments.SegmentsIncrease`);
  a line of several segments is split again where that happens, a single segment is drawn backwards or divided by 0
  (`Interpolation.DrawnBackwards`, `Interpolation.CannotDraw`).
- Cardinal splines are smooth for full tension only (`Cardinal.CardinalIsSmooth`).
- `parse` does not separate a command from a minus sign, and throws on an empty path (`PathText.ParseStringify`,
  `PathReading.ParseWritten`).
- `deserialize` also decodes entities that were in the string as text (`Escaping.RoundTripExactly`).
- `join` leaves the cursor of the new path at its start (`SvgPaths.Join`).
- A frozen object as a Map key can be taken for a primitive key (`OrderedMap.LookupGoesWrong`, `OrderedMap.LookupByIdentity`,
  `OrderedMap.RunAgreesExactly`).
- A promise resolved with a pending one can still be rejected by its own executor (`PromiseRuns.NotLockedIn`).
- What the reporting of uncaught rejections schedules at the end of a drain, at the end of a dispatch or by itself, can be
  left queued with no drain to come (`Microtasks.Queue.Turn`, `Microtasks.Rest.StaysCoveredExactly`).
- A one-shot task run again within its own run, or any task cancelled and scheduled again there, can make the end of the
  run throw, and a one-shot task then stays active without being counted (`TaskCounts.Reentered`,
  `TaskCounts.Rescheduled`). Every active task is counted and no end throws exactly in the runs of
  `TaskCounts.StaysEnrolledExactly`; not starting such things is enough (`TaskCounts.OrderlyEndsWell`). A throwing cancel
  hook leaves its task counted (`TaskCounts.CountsAreExact`).
- A webpack module whose factory is missing or throws counts as loaded from then on (`ModuleCache.FailureIsForgotten`).

## Model

| member | source | states |
|---|---|---|
| `Keys.MetaStore.FastKeyOf` | gatling-rest/src/main/resources/static/polyfills.f6ae3e8b63939c618130.js:1 | the hidden meta number is stable: asking for a key never changes the name of another, an object that cannot be extended and has no number stays without one, and without `create` nothing is written |
| `Keys.MetaStore.PeekInjective` | gatling-rest/src/main/resources/static/polyfills.f6ae3e8b63939c618130.js:1 | two different keys never share an index name |
| `LinkChain.Chain.AppendValid` | gatling-rest/src/main/resources/static/polyfills.f6ae3e8b63939c618130.js:1 | adding at the tail keeps both directions of the list, its ends and the stale links of removed rows right |
| `LinkChain.Chain.RemoveValid` | gatling-rest/src/main/resources/static/polyfills.f6ae3e8b63939c618130.js:1 | unlinking a row keeps all that right too, and no back link of a removed row ever comes to step over a live row |
| `LinkChain.Chain.ClearValid` | gatling-rest/src/main/resources/static/polyfills.f6ae3e8b63939c618130.js:1 | clearing the list keeps all that right, for the rows it removes and for those removed before |
| `LinkChain.Chain.WalkBackNearest` | gatling-rest/src/main/resources/static/polyfills.f6ae3e8b63939c618130.js:1 | following `p` from any row, removed or not, ends at the nearest live row at or before it, or at the start |
| `OrderedCollection.Collection.constructor` | gatling-rest/src/main/resources/static/polyfills.f6ae3e8b63939c618130.js:1 | a new collection is valid and empty |
| `OrderedCollection.Collection.SizeCounts` | gatling-rest/src/main/resources/static/polyfills.f6ae3e8b63939c618130.js:1 | `size` is the number of live entries |
| `OrderedCollection.Collection.GetEntry` | gatling-rest/src/main/resources/static/polyfills.f6ae3e8b63939c618130.js:1 | by index or by linear scan, the lookup answers the first live entry that matches the key |
| `OrderedCollection.Collection.Def` | gatling-rest/src/main/resources/static/polyfills.f6ae3e8b63939c618130.js:1 | `def` keeps index, list, ends and size in step and changes the collection exactly as setting a key in the ordered ledger does; no other entry moves |
| `OrderedCollection.Collection.Delete` | gatling-rest/src/main/resources/static/polyfills.f6ae3e8b63939c618130.js:1 | `delete` keeps them in step and changes the collection exactly as deleting a key in the ledger does; it answers whether an entry was found |
| `OrderedCollection.Collection.Clear` | gatling-rest/src/main/resources/static/polyfills.f6ae3e8b63939c618130.js:1 | `clear` empties index and list together and leaves every removed row a usable way back; the rows are those of clearing the ledger |
| `OrderedCollection.Collection.MetaGrows` | gatling-rest/src/main/resources/static/polyfills.f6ae3e8b63939c618130.js:1 | what other collections do to meta numbers cannot break this one |
| `OrderedCollection.Collection.StepBack` | gatling-rest/src/main/resources/static/polyfills.f6ae3e8b63939c618130.js:1 | the inner loop of `forEach` and of the iterators goes back over removed entries only |
| `OrderedCollection.Collection.StepOn` | gatling-rest/src/main/resources/static/polyfills.f6ae3e8b63939c618130.js:1 | the next entry is the first live one after the row the walk stood on, however that row was reached |
| `OrderedCollection.Collection.Do` | gatling-rest/src/main/resources/static/polyfills.f6ae3e8b63939c618130.js:1 | every operation refines its ledger operation |
| `OrderedCollection.Collection.Run` | gatling-rest/src/main/resources/static/polyfills.f6ae3e8b63939c618130.js:1 | every sequence of operations refines the same sequence on the ledger |
| `Ledger.ApplyAllLater` | gatling-rest/src/main/resources/static/polyfills.f6ae3e8b63939c618130.js:1 | over any changes rows are never lost, reordered or revived, and keep their keys |
| `Ledger.WalkFair` | gatling-rest/src/main/resources/static/polyfills.f6ae3e8b63939c618130.js:1 | whatever the callbacks change, a walk calls back only for entries live at that moment, in insertion order, passing over no live one, and ends with no live entry further on |
| `Ledger.WalkChanges` | gatling-rest/src/main/resources/static/polyfills.f6ae3e8b63939c618130.js:1 | at every callback, and at the end of the walk, all changes made by the callbacks before have been made, in order, and no others |
| `Ledger.FairComplete` | gatling-rest/src/main/resources/static/polyfills.f6ae3e8b63939c618130.js:1 | an entry that is still there when such a walk ends was visited exactly once |
| `OrderedMap.LookupByIdentity` | gatling-rest/src/main/resources/static/polyfills.f6ae3e8b63939c618130.js:1 | a lookup finds exactly the entry with this key, or nothing if there is none, if and only if the key is indexed or no earlier entry has a primitive key that `==` takes for it |
| `OrderedMap.LookupGoesWrong` | gatling-rest/src/main/resources/static/polyfills.f6ae3e8b63939c618130.js:1 | a frozen object as key is found under an unrelated entry with a primitive key loosely equal to it |
| `OrderedMap.SetExact` | gatling-rest/src/main/resources/static/polyfills.f6ae3e8b63939c618130.js:1 | when no object is looked up by scanning, setting a key is Map.prototype.set (section 23.1.3.9 of ECMA-262, 6th edition) |
| `OrderedMap.DeleteExact` | gatling-rest/src/main/resources/static/polyfills.f6ae3e8b63939c618130.js:1 | when no object is looked up by scanning, deleting a key is Map.prototype.delete (section 23.1.3.3 of ECMA-262, 6th edition) |
| `OrderedMap.PutAndDrop` | gatling-rest/src/main/resources/static/polyfills.f6ae3e8b63939c618130.js:1 | the abstract map does what Map.prototype.set and Map.prototype.delete are for: set overwrites the value in place or adds an entry at the end, delete takes the entry out, and every other entry stays, in order |
| `OrderedMap.LedgerRefinesMap` | gatling-rest/src/main/resources/static/polyfills.f6ae3e8b63939c618130.js:1 | one set, delete or clear whose lookup is by identity does to the entries what it does to the abstract ordered map |
| `OrderedMap.RunRefinesMap` | gatling-rest/src/main/resources/static/polyfills.f6ae3e8b63939c618130.js:1 | any sequence of set, delete and clear whose lookups are by identity leaves the entries of the same sequence on the abstract ordered map, whichever objects are frozen on the way |
| `OrderedMap.KeysStayDistinct` | gatling-rest/src/main/resources/static/polyfills.f6ae3e8b63939c618130.js:1 | over every run from an empty collection, with objects frozen on the way and lookups that go wrong, no live entry answers a lookup of the key of a later one; so no key is there twice |
| `OrderedMap.StepGoesWrong` | gatling-rest/src/main/resources/static/polyfills.f6ae3e8b63939c618130.js:1 | a set or delete whose lookup is not by identity leaves one entry fewer than the abstract map has |
| `OrderedMap.RunAgreesExactly` | gatling-rest/src/main/resources/static/polyfills.f6ae3e8b63939c618130.js:1 | over every such run the entries agree with the abstract map after every operation if and only if every lookup is by identity |
| `OrderedCollection.Collection.FreezesOthers` | gatling-rest/src/main/resources/static/polyfills.f6ae3e8b63939c618130.js:1 | freezing objects, and meta numbers given out for other collections, never turn a key of this collection into one looked up by scanning |
| `OrderedCollection.Collection.RunAsMap` | gatling-rest/src/main/resources/static/polyfills.f6ae3e8b63939c618130.js:1 | a script of operations and freezings does to the rows what the steps of the ledger do; when its lookups are by identity it leaves the entries, and the size, of the abstract ordered map |
| `OrderedMap.EntriesCount` | gatling-rest/src/main/resources/static/polyfills.f6ae3e8b63939c618130.js:1 | the live rows and the entries are equally many |
| `Iteration.ForEach` | gatling-rest/src/main/resources/static/polyfills.f6ae3e8b63939c618130.js:1 | the calls, and the collection afterwards, are those of the ledger walk with the same changes made by the callbacks |
| `Iteration.Turn` | gatling-rest/src/main/resources/static/polyfills.f6ae3e8b63939c618130.js:1 | one callback with its changes leads to the same place as one step of that walk |
| `Iteration.Iterator.Next` | gatling-rest/src/main/resources/static/polyfills.f6ae3e8b63939c618130.js:1 | an iterator gives the next live entry after the last one given, whatever was changed in between, and once done stays done |
| `Iteration.IterateAll` | gatling-rest/src/main/resources/static/polyfills.f6ae3e8b63939c618130.js:1 | a program that asks an iterator for its entries one by one, with any changes in between, is given those of the ledger walk with the same changes, and leaves the same collection |
| `Iteration.ChangeAndAsk` | gatling-rest/src/main/resources/static/polyfills.f6ae3e8b63939c618130.js:1 | the changes after one entry and the request for the next lead to the same place as one step of that walk |
| `Rho.GcdIsGreatest` | gatling-rest/static/src/assets/js/chartist.js:709-715 | Euclid as written gives the greatest common divisor, which every common divisor divides |
| `Rho.StepModulo` | gatling-rest/static/src/assets/js/chartist.js:717-731 | reducing between the two steps of the fast walker changes nothing |
| `Rho.OrbitCollides` | gatling-rest/static/src/assets/js/chartist.js:717-731 | two of the first `num` + 1 positions of the slow walker agree |
| `Rho.WalkersMeet` | gatling-rest/static/src/assets/js/chartist.js:717-731 | the walkers meet within `num` steps, where the gcd is `num` itself |
| `Rho.Rho` | gatling-rest/static/src/assets/js/chartist.js:704-734 | for every number the search ends after at most `num` rounds, with a divisor of `num` that is above 1 when `num` is; it is the first one the walkers find |
| `Rho.RhoUnique` | gatling-rest/static/src/assets/js/chartist.js:704-734 | what the search finds is determined by the number |
| `Rho.OrbitModulo` | gatling-rest/static/src/assets/js/chartist.js:717-731 | modulo a divisor of the number, its walkers are the walkers of the divisor |
| `Rho.FoundDivisors` | gatling-rest/static/src/assets/js/chartist.js:717-731 | what divides the gcd of a round are exactly the divisors modulo which the walkers stand on one place in that round |
| `Rho.NotTheSmallest` | gatling-rest/static/src/assets/js/chartist.js:701-734 | the answer for 25 is 25, not the smallest factor that the documentation promises |
| `Rho.SmallestExactly` | gatling-rest/static/src/assets/js/chartist.js:701-734 | for an odd number the answer is the smallest factor if and only if the walkers modulo that meet before those modulo any other factor |
| `Rho.SmallestForPrimes` | gatling-rest/static/src/assets/js/chartist.js:701-734 | so it is for every even number and every prime |
| `Rho.FirstRound` | gatling-rest/static/src/assets/js/chartist.js:717-731 | the first round looks at the common divisors of the number and 21 |
| `Rho.RhoOfThreeOrSeven` | gatling-rest/static/src/assets/js/chartist.js:717-731 | so for an odd number with a factor of 3 or 7 the answer is 21 if it has both, and else the one it has |
| `Rho.GcdOf` | gatling-rest/static/src/assets/js/chartist.js:704-734 | the inner gcd on multiples of a unit is the gcd of the multiples |
| `Rho.RhoOfFraction` | gatling-rest/static/src/assets/js/chartist.js:704-734 | for a range below 1.1 that is not whole the search ends after its first round, with a whole number of units that divides the range |
| `ScaleArithmetic.OrderOfMagnitude` | gatling-rest/static/src/assets/js/chartist.js:532-534 | 10^oom <= value < 10^(oom+1), for every positive value |
| `Bounds.Search.GoesOnBefore` | gatling-rest/static/src/assets/js/chartist.js:772-796 | a search that is still going on has gone on in all earlier rounds |
| `Bounds.Search.ByTwo` | gatling-rest/static/src/assets/js/chartist.js:772-796 | the loop gives up exactly when 1001 doublings or halvings do not settle it, and otherwise ends where doubling or halving first meets the space, keeping whole steps whole |
| `Bounds.Search.LeastPowerOfTwo` | gatling-rest/static/src/assets/js/chartist.js:772-796 | the doubling and halving ends at the least power of two times 10^oom that has its space, and is whole if it has to be, except exactly when 10^oom itself has not enough, and some such doubling of it takes up just the space |
| `Bounds.DoubledTooFar` | gatling-rest/static/src/assets/js/chartist.js:772-796 | from 0 to 8 on an axis of 80 with 20 for each step the step becomes 4, though 2 has its space |
| `Bounds.Search.SearchEnds` | gatling-rest/static/src/assets/js/chartist.js:772-796 | with a factor of about 2^rounds between axis and space there are at most that many changes of the step, so that the rounds grow with its logarithm, and the error cannot come up below 2^1000 |
| `Bounds.Search.ChooseStep` | gatling-rest/static/src/assets/js/chartist.js:758-796 | each of the three ways to choose a step gives one that has its space; step 1 and the divisor are taken exactly when they fit |
| `Bounds.Search.StepOneExactly` | gatling-rest/static/src/assets/js/chartist.js:758-796 | with onlyInteger the step is 1 if and only if that has its space |
| `Bounds.Search.ChosenWhole` | gatling-rest/static/src/assets/js/chartist.js:758-796 | with onlyInteger the step is whole whenever 10^oom is |
| `Bounds.Search.LargeStep` | gatling-rest/static/src/assets/js/chartist.js:758-796 | with onlyInteger in a range below 1 the step is 1, or longer than the range |
| `Bounds.Search.RangeFactor` | gatling-rest/static/src/assets/js/chartist.js:764-764 | rho of the range ends for every range; for one that is not whole it is no smaller than 10^oom, so that it is not taken |
| `Bounds.Search.StepDividesRange` | gatling-rest/static/src/assets/js/chartist.js:754-796 | step 1, the divisor and every halving of 10^oom divide the range before narrowing |
| `Bounds.TicksEndAtMax` | gatling-rest/static/src/assets/js/chartist.js:754-796 | the last tick is the maximum always for the divisor and for halvings of 10^oom, for step 1 if and only if the range is whole, and for k doublings if and only if 2^k divides the number of units in the range |
| `Bounds.InitialRange` | gatling-rest/static/src/assets/js/chartist.js:754-759 | before narrowing the range encloses the data and is 1 to 11 units of 10^oom |
| `Bounds.RaiseMin` | gatling-rest/static/src/assets/js/chartist.js:811-814 | the minimum ends at most one step below the data, by whole steps |
| `Bounds.LowerMax` | gatling-rest/static/src/assets/js/chartist.js:815-817 | the maximum ends at most one step above it, by whole steps |
| `Bounds.Ticks` | gatling-rest/static/src/assets/js/chartist.js:822-828 | the ticks are the minimum plus whole steps, as far as the maximum |
| `Bounds.LastTick` | gatling-rest/static/src/assets/js/chartist.js:822-828 | the last tick is the maximum if and only if the step divides the range before narrowing |
| `Bounds.WholeTicks` | gatling-rest/static/src/assets/js/chartist.js:822-828 | whole ends and a whole step make every tick whole |
| `Bounds.SpaceGrows` | gatling-rest/static/src/assets/js/chartist.js:545-547 | narrowing the range or widening the step gives a step more space, never less |
| `Bounds.Narrow` | gatling-rest/static/src/assets/js/chartist.js:798-830 | min <= low < min + step, max - step < high <= max, a step has its space on the final range, and the ticks end at max exactly when the step divides the range; for ends at least 1 apart they are all whole if asked |
| `Bounds.GetBounds` | gatling-rest/static/src/assets/js/chartist.js:745-830 | the same for every axis, space and range, in all three ways of choosing the step; it throws exactly when the doubling or halving has not settled in 1001 rounds |
| `Bounds.WholeTicksExactly` | gatling-rest/static/src/assets/js/chartist.js:745-830 | with onlyInteger all ticks are whole if and only if the ends are at least 1 apart or the low end, rounded down to 10^oom, is whole |
| `Bounds.TickNotWhole` | gatling-rest/static/src/assets/js/chartist.js:745-830 | with onlyInteger from 0.2 to 0.9 the only tick is 0.2 |
| `HighLow.Extent.Widen` | gatling-rest/static/src/assets/js/chartist.js:582-608 | over data nested to any depth the ends become the greatest and least of the numbers found and the ends before, on the sides that are to be found |
| `HighLow.SpreadOf` | gatling-rest/static/src/assets/js/chartist.js:620-632 | ends that coincide are spread around what they enclose, with 0 as one of them |
| `HighLow.Extent.Spread` | gatling-rest/static/src/assets/js/chartist.js:620-632 | updating the two fields in place spreads the ends in exactly that way |
| `HighLow.EndsOfData` | gatling-rest/static/src/assets/js/chartist.js:570-635 | with no end set two different numbers make their extremes the ends, one and the same number makes an end of it and of 0, and nothing, or nothing but 0, gives the range from 0 to 1 |
| `HighLow.GetHighLow` | gatling-rest/static/src/assets/js/chartist.js:570-635 | high > low for all data and options; a side that the options leave open leaves no number out, and the reference value is inside |
| `Axis.CreateChartRect` | gatling-rest/static/src/assets/js/chartist.js:860-907 | both sides are at least 1 long, whatever the size, the padding and the label offsets; it keeps clear of the padding at the top and left |
| `Axis.ChartRectFills` | gatling-rest/static/src/assets/js/chartist.js:860-907 | in both directions the rectangle is what the drawing leaves without padding and labels, with the labels on their side of it, or 1 long if that would be less |
| `Axis.ProjectionGrows` | gatling-rest/static/src/assets/js/chartist.js:3127-3129 | the projection is strictly increasing and takes the ends of the scale to the ends of the axis |
| `Axis.DataOnAxis` | gatling-rest/static/src/assets/js/chartist.js:3127-3129 | so every number between the ends lands on the axis, in order |
| `Axis.AutoScale` | gatling-rest/static/src/assets/js/chartist.js:3111-3129 | from arbitrarily nested data to the axis: unless axis and space are out of all proportion a scale is found, its range is not zero, and every number of the data is projected into the axis, keeping strict order; with onlyInteger whole data has whole ticks; the scale is the one that getBounds makes for the ends of the data |
| `Bars.StackedIsSum` | gatling-rest/static/src/assets/js/chartist.js:3971-3974 | the stored coordinate is the zero point plus the lengths so far, plus the zero point again for every time the stack stood at coordinate 0 |
| `Bars.RestartsCount` | gatling-rest/static/src/assets/js/chartist.js:3971-3974 | the stack never stands at coordinate 0 exactly when no bar before the last ends there |
| `Bars.StackedExactly` | gatling-rest/static/src/assets/js/chartist.js:3971-3974 | a stack ends where its total length takes it if and only if the total length of none of its parts before the last bar takes it to coordinate 0, or the zero point is 0 |
| `Bars.StackStartsOver` | gatling-rest/static/src/assets/js/chartist.js:3971-3974 | a bar of 5 on one that ends at coordinate 0 ends at 15, 5 from the zero point 10 |
| `Bars.PlainBars` | gatling-rest/static/src/assets/js/chartist.js:3885-4007 | without stacking: one bar for each value, series by series and in order, and none for a hole; each goes from the coordinate of 0 to that of its own value, as far as the axis shows them, and exactly so if and only if the axis shows both |
| `Bars.DrawSeries` | gatling-rest/static/src/assets/js/chartist.js:3885-4007 | one series: one bar for each value in order and none for a hole; stacked, on the stored coordinates as the series before left them; not stacked, from the coordinate of 0 to that of its own value, as far as the axis shows them |
| `Bars.DrawBars` | gatling-rest/static/src/assets/js/chartist.js:3870-4007 | all series: one bar for each value in order; stacked, those that the stacks of the whole series determine; not stacked, each from the coordinate of 0 to that of its own value, as far as the axis shows them |
| `Bars.TopIsTotal` | gatling-rest/static/src/assets/js/chartist.js:3971-4002 | in a padded chart whose axis shows all partial sums of a stack, the coordinate after k series is the projection of the k-th partial sum, for values of any sign |
| `Bars.StackedBarsExact` | gatling-rest/static/src/assets/js/chartist.js:3971-4002 | so every bar goes from one partial sum to the next, neighbours share an end, and clamping to the chart rectangle moves neither |
| `Bars.StackExactly` | gatling-rest/static/src/assets/js/chartist.js:3971-4002 | all bars of a stack do so if and only if the axis shows all its partial sums |
| `Bars.StackedBars` | gatling-rest/static/src/assets/js/chartist.js:3971-4002 | in terms of the bars drawn: one for each value in order, and those of a stack stand between its partial sums if and only if the axis shows all these |
| `Bars.OneSignShown` | gatling-rest/static/src/assets/js/chartist.js:3971-4002 | for values of one sign it is enough that the axis shows 0 and the whole stack |
| `Bars.SerialSumLacks` | gatling-rest/static/src/assets/js/chartist.js:3787-3799 | the sum the scale is made for lacks exactly what the values before the last hole add up to, for values of any sign |
| `Bars.HoleHidesBar` | gatling-rest/static/src/assets/js/chartist.js:3787-3799 | for a hole above a bar of 3 the scale is made for 0 |
| `Bars.SumHidesStack` | gatling-rest/static/src/assets/js/chartist.js:3787-3799 | for 5 and -5 in one stack the scale is made for 0 |
| `Bars.SumIsLeaf` | gatling-rest/static/src/assets/js/chartist.js:3787-3799 | the total of a stack is among the data that the scale is made for when the values before its last hole add up to 0 |
| `Bars.ScreenLinear` | gatling-rest/static/src/assets/js/chartist.js:3816-3860 | the coordinates of the value axis are affine and ordered, for bars in either direction |
| `Bars.ScreenSpans` | gatling-rest/static/src/assets/js/chartist.js:3816-3860 | the ends of the scale are at the ends of the axis, and greater values are further up, or further right for horizontal bars |
| `Bars.MakeAxis` | gatling-rest/static/src/assets/js/chartist.js:3800-3867 | the value axis: unless axis and space are out of all proportion there is one, whose scale is made for the data and 0; it shows all of them and runs the right way |
| `Bars.PlainChart` | gatling-rest/static/src/assets/js/chartist.js:3800-4007 | a chart without stacking end to end: unless axis and space are out of all proportion there is one bar for each value, in order, and each goes exactly from the coordinate of 0 to that of its own value |
| `Bars.StackedChart` | gatling-rest/static/src/assets/js/chartist.js:3761-4007 | end to end, for all series, with or without onlyInteger: the scale is found unless axis and space are out of all proportion; there is one bar for each value, in order; the bars of a stack are where the sums of the series put them if and only if the axis shows these sums, which it does for values of one sign when those before the last hole add up to 0 |
| `Segments.SplitIntoSegments` | gatling-rest/static/src/assets/js/chartist.js:1124-1166 | the loop over flat arrays makes the segments of the points |
| `Segments.SegmentsPartition` | gatling-rest/static/src/assets/js/chartist.js:1124-1166 | the segments hold exactly the points with values, each once and in order |
| `Segments.SegmentsDefined` | gatling-rest/static/src/assets/js/chartist.js:1124-1166 | no segment is empty or holds a hole, and if there are several, each is shorter than the line |
| `Segments.LastOfSegments` | gatling-rest/static/src/assets/js/chartist.js:1124-1166 | the hole flag and the last segment tell exactly where the last point with a value is |
| `Segments.SegmentsIncrease` | gatling-rest/static/src/assets/js/chartist.js:1124-1166 | with increasingX all segments strictly increase if and only if every point with a value lies right of the last one, or not right of the raw point before it |
| `Segments.SegmentsIncreaseAlways` | gatling-rest/static/src/assets/js/chartist.js:1124-1166 | without fillHoles all segments strictly increase in x when asked, for every line |
| `Segments.HoleHidesDecrease` | gatling-rest/static/src/assets/js/chartist.js:1124-1166 | with fillHoles a discarded hole can hide that x goes back |
| `Segments.OneSegment` | gatling-rest/static/src/assets/js/chartist.js:1124-1166 | a hole-free line, increasing where asked, is one segment |
| `Segments.Resplit` | gatling-rest/static/src/assets/js/chartist.js:1124-1166 | splitting a segment again gives back just that segment |
| `Segments.SegmentsStart` | gatling-rest/static/src/assets/js/chartist.js:1124-1166 | a segment starts at a point exactly if no value came before, an unfilled hole comes right before, or x turns back |
| `MonotoneCurve.SlopePositive` | gatling-rest/static/src/assets/js/chartist.js:1484-1510 | between rising secants the slope is positive and at most three times either |
| `MonotoneCurve.SlopeLaw` | gatling-rest/static/src/assets/js/chartist.js:1484-1510 | without a quotient: m * ((2b + a) * q + (b + 2a) * p) == 3 * (a + b) * p * q for secants p and q of one sign over widths a and b, and m is 0 for others |
| `MonotoneCurve.SlopeBetween` | gatling-rest/static/src/assets/js/chartist.js:1484-1510 | between secants of one sign the slope lies strictly between them, or is both if they are equal |
| `MonotoneCurve.ShorterWeighsMore` | gatling-rest/static/src/assets/js/chartist.js:1484-1510 | between rising secants that of the shorter step weighs more: the slope is below the harmonic mean of the secants if and only if the shorter step is the one with the smaller secant, and above it the other way round |
| `MonotoneCurve.SlopeIsGentle` | gatling-rest/static/src/assets/js/chartist.js:1484-1510 | for all widths and secants the slope has the sign of both and at most three times the size of either; it is 0 where they differ |
| `MonotoneCurve.CubicMixture` | gatling-rest/static/src/assets/js/chartist.js:1514-1531 | every such cubic is a mixture of four fixed curves, in two ways |
| `MonotoneCurve.CubicRises` | gatling-rest/static/src/assets/js/chartist.js:1514-1531 | handles that rise by no more than the whole make a cubic that never falls |
| `MonotoneCurve.CurveIsMonotone` | gatling-rest/static/src/assets/js/chartist.js:1514-1531 | gentle slopes at both ends keep the cubic between its end values, moving one way only |
| `MonotoneCurve.BezierFour` | gatling-rest/static/src/assets/js/chartist.js:1514-1531 | the curve of four control values is that cubic |
| `MonotoneCurve.BezierAffine` | gatling-rest/static/src/assets/js/chartist.js:1514-1531 | control points at thirds make x affine in t |
| `MonotoneCurve.BezierMonotone` | gatling-rest/static/src/assets/js/chartist.js:1514-1531 | the curve with control values by gentle slopes, as a path element gives it, stays between its end values and moves one way only |
| `Interpolation.None` | gatling-rest/static/src/assets/js/chartist.js:1197-1223 | one element for each point with a value, moving exactly after holes |
| `Interpolation.SlopesAreGentle` | gatling-rest/static/src/assets/js/chartist.js:1484-1510 | the slope at every point suits the steps on both sides of it |
| `Interpolation.SplineIsMonotone` | gatling-rest/static/src/assets/js/chartist.js:1484-1531 | every curve emitted runs evenly in x, and in y only from the value at one end towards that at the other |
| `Interpolation.CurvesAreSmooth` | gatling-rest/static/src/assets/js/chartist.js:1484-1531 | at every inner point the curves on both sides have the same slope |
| `Interpolation.FindSecants` | gatling-rest/static/src/assets/js/chartist.js:1475-1489 | the arrays dxs and ds hold the widths and secants of all steps |
| `Interpolation.SlopesFit` | gatling-rest/static/src/assets/js/chartist.js:1484-1510 | in terms of the coordinates of three neighbouring points every inner slope is the weighted harmonic mean of the two steps, or 0 if they do not go the same way; at the ends it is that of the outer step |
| `Interpolation.FindSlopes` | gatling-rest/static/src/assets/js/chartist.js:1491-1510 | the array ms holds the slopes of all points, and fits their coordinates in that way |
| `Interpolation.DrawSpline` | gatling-rest/static/src/assets/js/chartist.js:1464-1534 | the path drawn is the spline through the points |
| `Interpolation.MonotoneCubic` | gatling-rest/static/src/assets/js/chartist.js:1437-1535 | the recursion ends, and the joined path is that of all segments, each split again and drawn by itself |
| `Interpolation.DrawableIncreases` | gatling-rest/static/src/assets/js/chartist.js:1437-1535 | all segments have strictly increasing x exactly when no hole hides that x goes back |
| `Interpolation.PathOfDrawable` | gatling-rest/static/src/assets/js/chartist.js:1437-1535 | then splitting the segments again changes nothing |
| `Interpolation.PathOfDraws` | gatling-rest/static/src/assets/js/chartist.js:1437-1535 | the path has one element for each of the marked points, in order, with its coordinates and data, and moves exactly where the marks say, for segments that are split again, too |
| `Interpolation.PathMarking` | gatling-rest/static/src/assets/js/chartist.js:1437-1535 | the marked points are exactly the points with values, in order |
| `Interpolation.CannotDraw` | gatling-rest/static/src/assets/js/chartist.js:1437-1535 | the lines left out are exactly the single segments of three points or more with a step of width 0; they need fillHoles |
| `Interpolation.DrawnBackwards` | gatling-rest/static/src/assets/js/chartist.js:1437-1535 | from 2 by a hole at 0 to 1 and 3 a line is drawn backwards; from 2 by a hole at 1 to 2 and 3 it is one of those left out |
| `Interpolation.PieceShape` | gatling-rest/static/src/assets/js/chartist.js:1437-1535 | a segment begins with a move and goes on with a line if it has two points, and with curves only if it has more |
| `Interpolation.OneSegmentPath` | gatling-rest/static/src/assets/js/chartist.js:1437-1535 | the recursive call for a segment draws just that segment |
| `Cardinal.DrawCardinal` | gatling-rest/static/src/assets/js/chartist.js:1332-1404 | the recursion ends, and the joined path is that of all segments, each drawn by itself |
| `Cardinal.CardinalPathDraws` | gatling-rest/static/src/assets/js/chartist.js:1332-1404 | one element for each point with a value, in order, moving exactly at segment starts |
| `Cardinal.TensionNearest` | gatling-rest/static/src/assets/js/chartist.js:1329-1329 | the tension is the number between 0 and 1 that is nearest to the one given |
| `Cardinal.HandlesMeet` | gatling-rest/static/src/assets/js/chartist.js:1391-1400 | the handles on both sides of a coordinate differ by the untensioned part of the next step, so they are equal for full tension or a step of 0 only |
| `Cardinal.CardinalHandles` | gatling-rest/static/src/assets/js/chartist.js:1391-1400 | both handles of every curve in terms of its neighbours; at the ends of the line the missing neighbour is the end itself |
| `Cardinal.CardinalShape` | gatling-rest/static/src/assets/js/chartist.js:1391-1400 | a segment begins with a move and goes on with a line if it has two points, and with curves only if it has more |
| `Cardinal.CardinalIsSmooth` | gatling-rest/static/src/assets/js/chartist.js:1391-1400 | curves meet with equal handles if and only if the tension is 1 or the next point is the same |
| `Numerals.TextRoundTrip` | gatling-rest/static/src/assets/js/chartist.js:2820-2831 | a rounded number, printed and read again, is the same number, and prints a leading digit exactly when it is not negative |
| `Numerals.UnsignedPlain` | gatling-rest/static/src/assets/js/chartist.js:2820-2831 | a printed number has no zero more than it needs, in front of the point or at its end |
| `PathText.RoundedNearest` | gatling-rest/static/src/assets/js/chartist.js:2820-2831 | parameters are rounded to the nearest multiple of 10^-accuracy, and upwards in the middle between two |
| `PathText.PrintedPath` | gatling-rest/static/src/assets/js/chartist.js:2820-2831 | a move to (1, 2.5) and a line to (-0.125, 30) print as M1,2.5L-0.12,30, and with a Z at the end if the path is closed |
| `PathText.LetterDigitConcat` | gatling-rest/static/src/assets/js/chartist.js:2776-2777 | the first replacement works on both parts of a text separately where no letter meets a digit |
| `PathText.DigitLetterConcat` | gatling-rest/static/src/assets/js/chartist.js:2776-2777 | the second replacement puts one space exactly where a digit meets a letter between the parts |
| `PathText.SpacedAll` | gatling-rest/static/src/assets/js/chartist.js:2776-2778 | the replacements on a printed path separate the elements, and a command from its first number unless a minus sign comes first |
| `PathText.SplitSpaced` | gatling-rest/static/src/assets/js/chartist.js:2776-2778 | splitting the spaced text gives the commands and numbers one by one, with a command still glued to a number that starts with a minus sign |
| `PathText.ChunksAll` | gatling-rest/static/src/assets/js/chartist.js:2779-2786 | grouping the parts gives one chunk for each element, and one for the closing Z |
| `PathText.ReadAll` | gatling-rest/static/src/assets/js/chartist.js:2794-2803 | the chunks read back as the rounded elements if and only if no first number is negative; otherwise an unknown command throws |
| `PathText.ParseStringify` | gatling-rest/static/src/assets/js/chartist.js:2774-2831 | parse(stringify(p)) is p with rounded parameters and without the closing Z if and only if there is something to parse and no element's first parameter prints with a minus sign; otherwise it throws |
| `PathText.RoundedExact` | gatling-rest/static/src/assets/js/chartist.js:2774-2831 | parameters that are multiples of 10^-accuracy come back unchanged |
| `PathText.PathRoundTrip` | gatling-rest/static/src/assets/js/chartist.js:2774-2831 | for such parameters parse(stringify(p)) is p itself, without a closing Z, if and only if there is something to parse and no element starts with a negative parameter |
| `PathReading.ParseWritten` | gatling-rest/static/src/assets/js/chartist.js:2774-2803 | a text in which every command stands apart from its numbers is read as what is written: numbers of either sign, in first place too, any gaps of white space and commas, and a closing Z in either case or none |
| `Numerals.ReadNumeral` | gatling-rest/static/src/assets/js/chartist.js:2774-2803 | a decimal numeral is read as the number it denotes, with a minus sign as its opposite, and with a plus sign as the same |
| `PathText.NothingToParse` | gatling-rest/static/src/assets/js/chartist.js:2774-2791 | an empty path text throws |
| `SvgPaths.SvgPath.Position` | gatling-rest/static/src/assets/js/chartist.js:2656-2663 | the cursor stays between the start and the end |
| `SvgPaths.SvgPath.Remove` | gatling-rest/static/src/assets/js/chartist.js:2672-2675 | elements before the cursor stay, those from it on go, as many as asked and there are |
| `SvgPaths.SvgPath.Insert` | gatling-rest/static/src/assets/js/chartist.js:2618-2624 | an element goes in at the cursor, in the case that `relative` asks for, and the cursor moves behind it |
| `SvgPaths.SvgPath.Move` | gatling-rest/static/src/assets/js/chartist.js:2687-2693 | an M or m with its two coordinates goes in at the cursor, which moves behind it; nothing else changes |
| `SvgPaths.SvgPath.Line` | gatling-rest/static/src/assets/js/chartist.js:2705-2711 | an L or l with its two coordinates goes in at the cursor, which moves behind it; nothing else changes |
| `SvgPaths.SvgPath.Curve` | gatling-rest/static/src/assets/js/chartist.js:2727-2737 | a C or c with both control points and its end goes in at the cursor, which moves behind it; nothing else changes |
| `SvgPaths.SvgPath.Arc` | gatling-rest/static/src/assets/js/chartist.js:2754-2765 | an A or a with its seven parameters goes in at the cursor, which moves behind it; nothing else changes |
| `SvgPaths.SvgPath.Parse` | gatling-rest/static/src/assets/js/chartist.js:2774-2814 | what is read goes in at the cursor, which moves behind it; a text that throws leaves path and cursor alone |
| `SvgPaths.ReadPrinted` | gatling-rest/static/src/assets/js/chartist.js:2774-2814 | the printed text of one path read into another puts the elements of the first at the cursor of the second |
| `SvgPaths.ParsedDescribed` | gatling-rest/static/src/assets/js/chartist.js:2794-2803 | whatever is read, every element has a known command and all its parameters |
| `SvgPaths.SvgPath.SplitByCommand` | gatling-rest/static/src/assets/js/chartist.js:2913-2927 | the new paths hold the pieces of the path, and the path itself stays |
| `SvgPaths.PiecesSplit` | gatling-rest/static/src/assets/js/chartist.js:2913-2927 | joining the pieces gives the path back, and cuts are exactly before the command |
| `SvgPaths.Join` | gatling-rest/static/src/assets/js/chartist.js:2939-2948 | all elements in order, in a new path whose cursor stays at the start |
| `Escaping.SerializeIsEscape` | gatling-rest/static/src/assets/js/chartist.js:274-286 | the five sequential passes escape every character once, all at the same time |
| `Escaping.SerializeEach` | gatling-rest/static/src/assets/js/chartist.js:274-286 | every character is escaped by itself, the five special ones to their entities and any other to itself |
| `Escaping.SerializeHarmless` | gatling-rest/static/src/assets/js/chartist.js:274-286 | nothing is left that could end an attribute value or start a tag |
| `Escaping.DecodeFirst` | gatling-rest/static/src/assets/js/chartist.js:295-308 | the pass for &amp; undoes the escaping of ampersands, whatever else is escaped |
| `Escaping.DecodePass` | gatling-rest/static/src/assets/js/chartist.js:295-308 | every later pass undoes its own escaping, and decodes its entity where the string had it as text |
| `Escaping.RoundTrip` | gatling-rest/static/src/assets/js/chartist.js:274-308 | deserialize(serialize(s)) is s with the four other entities decoded |
| `Escaping.RoundTripExactly` | gatling-rest/static/src/assets/js/chartist.js:274-308 | deserialize(serialize(s)) is s if and only if s holds none of &lt; &gt; &quot; and &#039; as text |
| `Escaping.ReplaceShortens` | gatling-rest/static/src/assets/js/chartist.js:108-110 | replacing by something shorter leaves a string alone or makes it shorter |
| `ModuleCache.RequireOnce` | gatling-rest/src/main/resources/static/runtime.ec2944dd8b20ec099bf3.js:1 | no factory runs twice, whatever the module graph and whatever throws |
| `ModuleCache.FailureIsForgotten` | gatling-rest/src/main/resources/static/runtime.ec2944dd8b20ec099bf3.js:1 | a module that failed stays cached: requiring it again returns |
| `ModuleCache.RequireAdds` | gatling-rest/src/main/resources/static/runtime.ec2944dd8b20ec099bf3.js:1 | a call that returns has cached the module and all that the modules it added need |
| `ModuleCache.RequireStays` | gatling-rest/src/main/resources/static/runtime.ec2944dd8b20ec099bf3.js:1 | a call stays inside every set that holds the module and what is needed inside it, and returns if that set is closed |
| `ModuleCache.RequireReturns` | gatling-rest/src/main/resources/static/runtime.ec2944dd8b20ec099bf3.js:1 | with a closed cache a call returns if and only if all that can be reached has a factory that does not throw |
| `ModuleCache.ReturnsExactly` | gatling-rest/src/main/resources/static/runtime.ec2944dd8b20ec099bf3.js:1 | whatever the cache holds, a call returns if and only if all that it can reach outside the cache has a factory that does not throw |
| `ModuleCache.AllInOrder` | gatling-rest/src/main/resources/static/runtime.ec2944dd8b20ec099bf3.js:1 | of two modules required one after the other the later is cached only after the earlier, unless it was cached already or what is required up to the earlier one reaches it |
| `ModuleCache.RequireInOrder` | gatling-rest/src/main/resources/static/runtime.ec2944dd8b20ec099bf3.js:1 | the module asked for is cached first; and for every module that a call caches, of two of its needs that were not cached before it the later is cached only after the earlier, unless the needs up to the earlier one reach it |
| `ModuleCache.FailureStops` | gatling-rest/src/main/resources/static/runtime.ec2944dd8b20ec099bf3.js:1 | when a need fails the call fails, and nothing is cached but the module itself and what its needs up to that one reach |
| `ChunkLoading.Runtime.RequireModule` | gatling-rest/src/main/resources/static/runtime.ec2944dd8b20ec099bf3.js:1 | the recursive require ends, on cyclic graphs too, caches the module asked for first, and then what it needs in exactly the order of the model |
| `ChunkLoading.Runtime.IsFulfilled` | gatling-rest/src/main/resources/static/runtime.ec2944dd8b20ec099bf3.js:1 | an entry is ready if and only if all its chunks are installed |
| `ChunkLoading.Runtime.CheckDeferred` | gatling-rest/src/main/resources/static/runtime.ec2944dd8b20ec099bf3.js:1 | scanning while splicing visits every deferred entry, and an exception leaves the entries after it queued |
| `ChunkLoading.Runtime.PushChunks` | gatling-rest/src/main/resources/static/runtime.ec2944dd8b20ec099bf3.js:1 | one push installs, merges, queues and scans |
| `ChunkLoading.ScanKeeps` | gatling-rest/src/main/resources/static/runtime.ec2944dd8b20ec099bf3.js:1 | a scan loses no entry and starts none twice or too early |
| `ChunkLoading.ScanSplits` | gatling-rest/src/main/resources/static/runtime.ec2944dd8b20ec099bf3.js:1 | a scan that returns leaves exactly the entries that miss a chunk, in order |
| `ChunkLoading.ScanStops` | gatling-rest/src/main/resources/static/runtime.ec2944dd8b20ec099bf3.js:1 | a scan that throws has started the ready entries up to the one that threw, with it, and leaves the others and all after it, in order |
| `ChunkLoading.ScanRequires` | gatling-rest/src/main/resources/static/runtime.ec2944dd8b20ec099bf3.js:1 | what a scan caches is what requiring the main modules of the entries it starts caches, one after the other |
| `ChunkLoading.ScanInOrder` | gatling-rest/src/main/resources/static/runtime.ec2944dd8b20ec099bf3.js:1 | of two entries that a scan starts the main module of the later is cached only after that of the earlier, unless it was cached already or the entries up to the earlier one reach it |
| `ChunkLoading.LastMerged` | gatling-rest/src/main/resources/static/runtime.ec2944dd8b20ec099bf3.js:1 | over every run the table holds for each id the factory that came last |
| `ChunkLoading.RunKeeps` | gatling-rest/src/main/resources/static/runtime.ec2944dd8b20ec099bf3.js:1 | over every run, exceptions included: no factory runs twice, every entry that arrived is queued or was started and never both, and none started before all its chunks were there |
| `ChunkLoading.QueueIsWaiting` | gatling-rest/src/main/resources/static/runtime.ec2944dd8b20ec099bf3.js:1 | over every run without exceptions the queue is exactly the entries that still miss a chunk, in order of arrival |
| `ChunkLoading.ReadyIsRunnable` | gatling-rest/src/main/resources/static/runtime.ec2944dd8b20ec099bf3.js:1 | in well-built pushes all that a ready entry can reach has arrived |
| `ChunkLoading.WellBuiltReturns` | gatling-rest/src/main/resources/static/runtime.ec2944dd8b20ec099bf3.js:1 | well-built pushes never throw, in any order, and the cache is closed after each |
| `ChunkLoading.OrderIndependent` | gatling-rest/src/main/resources/static/runtime.ec2944dd8b20ec099bf3.js:1 | in any order of arrival the same modules run, the same entries start and the same still wait |
| `ChunkLoading.RanIsLeast` | gatling-rest/src/main/resources/static/runtime.ec2944dd8b20ec099bf3.js:1 | what has run is the least set with the started entries and all they need |
| `PromiseRuns.TasksOfAllCells` | gatling-rest/src/main/resources/static/polyfills.f6ae3e8b63939c618130.js:1 | reading the listener array four cells at a time gives every registration back, once and in order |
| `PromiseRuns.SettleInv` | gatling-rest/src/main/resources/static/polyfills.f6ae3e8b63939c618130.js:1 | settling keeps the books of all promises: one microtask for each registration |
| `PromiseRuns.RegisterInv` | gatling-rest/src/main/resources/static/polyfills.f6ae3e8b63939c618130.js:1 | `then` keeps the books of all promises, before and after settlement |
| `PromiseRuns.ResolveInv` | gatling-rest/src/main/resources/static/polyfills.f6ae3e8b63939c618130.js:1 | the resolver keeps the books in every branch: self-resolution, settled and pending promises, other thenables, throwing getters and plain values |
| `PromiseRuns.ApplyInv` | gatling-rest/src/main/resources/static/polyfills.f6ae3e8b63939c618130.js:1 | every step that a run can make keeps the books |
| `PromiseRuns.RunInv` | gatling-rest/src/main/resources/static/polyfills.f6ae3e8b63939c618130.js:1 | every run keeps the books |
| `PromiseRuns.SettlesOnce` | gatling-rest/src/main/resources/static/polyfills.f6ae3e8b63939c618130.js:1 | over every run a promise settles once at most and its value never changes; only an uncaught rejection may become a caught one |
| `PromiseRuns.EachReactionOnce` | gatling-rest/src/main/resources/static/polyfills.f6ae3e8b63939c618130.js:1 | over every run a settled promise has scheduled exactly one microtask for each registration, in order, for the zone and the promise of the registration; a fulfilled one has them call what was given for fulfilment, or pass the value on if that is no function, a rejected one what was given for rejection, or pass the rejection on; a pending one has scheduled none and holds all registrations, four cells each (sections 2.2.6 and 2.2.7 of Promises/A+) |
| `PromiseRuns.StepRegisters` | gatling-rest/src/main/resources/static/polyfills.f6ae3e8b63939c618130.js:1 | a call of `then` registers what it was given, resolving with a pending promise a fresh guarded pair of resolvers, and nothing else registers anything |
| `PromiseRuns.RunRegisters` | gatling-rest/src/main/resources/static/polyfills.f6ae3e8b63939c618130.js:1 | so over every run the registrations of a promise are those asked for, in that order |
| `PromiseRuns.SettlesAsAsked` | gatling-rest/src/main/resources/static/polyfills.f6ae3e8b63939c618130.js:1 | a pending promise is fulfilled with a plain value, rejected with any reason, listed last as uncaught exactly if nothing is registered with it, left pending by another thenable, and rejected by a `then` that throws or by itself |
| `PromiseRuns.SettledIgnores` | gatling-rest/src/main/resources/static/polyfills.f6ae3e8b63939c618130.js:1 | the resolvers of a settled promise do nothing |
| `PromiseRuns.UncaughtExactly` | gatling-rest/src/main/resources/static/polyfills.f6ae3e8b63939c618130.js:1 | an uncaught rejection is listed or was reported exactly once, and never while it has a registration |
| `PromiseRuns.AdoptsSettled` | gatling-rest/src/main/resources/static/polyfills.f6ae3e8b63939c618130.js:1 | resolving with a settled promise takes over its outcome, unless that is a rejection with the resolved promise itself |
| `PromiseRuns.AdoptionPassesOn` | gatling-rest/src/main/resources/static/polyfills.f6ae3e8b63939c618130.js:1 | a guarded resolver called with the outcome of the adopted promise passes it on, and a second call does nothing |
| `PromiseRuns.NotLockedIn` | gatling-rest/src/main/resources/static/polyfills.f6ae3e8b63939c618130.js:1 | a promise resolved with a pending one is not locked in: its own reject still settles it |
| `ZoneAwarePromises.Realm.Make` | gatling-rest/src/main/resources/static/polyfills.f6ae3e8b63939c618130.js:1 | a new promise is pending, with no listeners |
| `ZoneAwarePromises.Realm.ClearUnhandled` | gatling-rest/src/main/resources/static/polyfills.f6ae3e8b63939c618130.js:1 | the splice loop takes a caught rejection off the list, though it skips an element after each hit |
| `ZoneAwarePromises.Realm.ScheduleReaction` | gatling-rest/src/main/resources/static/polyfills.f6ae3e8b63939c618130.js:1 | one microtask more, last: for a fulfilled promise it calls `f`, or passes the value on if that is no function, for a rejected one `g`, or passes the rejection on; a rejection is caught by it |
| `ZoneAwarePromises.Realm.EachAnswered` | gatling-rest/src/main/resources/static/polyfills.f6ae3e8b63939c618130.js:1 | in every state that the methods keep, a settled promise has one microtask for each registration in its fields, in order, with just these handlers |
| `ZoneAwarePromises.Realm.ScheduleAll` | gatling-rest/src/main/resources/static/polyfills.f6ae3e8b63939c618130.js:1 | the loop over the array schedules one for every four cells |
| `ZoneAwarePromises.Realm.SettlePromise` | gatling-rest/src/main/resources/static/polyfills.f6ae3e8b63939c618130.js:1 | the writes of settlement are the settlement step |
| `ZoneAwarePromises.Realm.ResolvePromise` | gatling-rest/src/main/resources/static/polyfills.f6ae3e8b63939c618130.js:1 | the resolver on objects is the resolving step, recursion included, and throws only for self-resolution |
| `ZoneAwarePromises.Realm.CallResolver` | gatling-rest/src/main/resources/static/polyfills.f6ae3e8b63939c618130.js:1 | a resolver that was handed out turns an exception into a rejection |
| `ZoneAwarePromises.Realm.CallOnce` | gatling-rest/src/main/resources/static/polyfills.f6ae3e8b63939c618130.js:1 | a guarded resolver is the guarded step: only its first call goes through |
| `ZoneAwarePromises.Realm.Then` | gatling-rest/src/main/resources/static/polyfills.f6ae3e8b63939c618130.js:1 | `then` on objects is the registering step |
| `ZoneAwarePromises.Realm.ReportNext` | gatling-rest/src/main/resources/static/polyfills.f6ae3e8b63939c618130.js:1 | reporting takes the oldest rejection off the list |
| `Microtasks.FifoInOrder` | gatling-rest/src/main/resources/static/polyfills.f6ae3e8b63939c618130.js:1 | a plain queue runs first what was queued and then what the tasks that ran have scheduled, in the order in which they ran |
| `Microtasks.ScheduledInOrder` | gatling-rest/src/main/resources/static/polyfills.f6ae3e8b63939c618130.js:1 | code schedules in the order in which it is written, with that of tasks invoked in place at their place |
| `Microtasks.FifoStep` | gatling-rest/src/main/resources/static/polyfills.f6ae3e8b63939c618130.js:1 | taking one task keeps what has run followed by what is queued in order |
| `Microtasks.Queue.ScheduleMicrotask` | gatling-rest/src/main/resources/static/polyfills.f6ae3e8b63939c618130.js:1 | a native drain is asked for exactly when code outside every task finds the queue empty |
| `Microtasks.Queue.RunBody` | gatling-rest/src/main/resources/static/polyfills.f6ae3e8b63939c618130.js:1 | code that runs in a task or a drain, with the tasks it invokes in place, only appends |
| `Microtasks.Queue.RunBatch` | gatling-rest/src/main/resources/static/polyfills.f6ae3e8b63939c618130.js:1 | running a batch while new tasks gather elsewhere is the same as running the plain queue; it asks for a native drain exactly when the first task that schedules anything does so outside every task |
| `Microtasks.Queue.Drain` | gatling-rest/src/main/resources/static/polyfills.f6ae3e8b63939c618130.js:1 | a drain runs the plain queue to its end, across exceptions, each reported once; a nested one does nothing; afterwards exactly what the reporting scheduled is queued, and native drains were asked for once for each such batch |
| `Microtasks.Queue.InvokeTask` | gatling-rest/src/main/resources/static/polyfills.f6ae3e8b63939c618130.js:1 | the outermost task drains at its end, inner ones do not |
| `Microtasks.Queue.Turn` | gatling-rest/src/main/resources/static/polyfills.f6ae3e8b63939c618130.js:1 | after every turn what is queued and how many native drains are to come is determined by what was there before; a task is stranded if and only if the reporting at the end of a drain schedules something with no native drain left or asked for |
| `Microtasks.Rest.StaysCoveredExactly` | gatling-rest/src/main/resources/static/polyfills.f6ae3e8b63939c618130.js:1 | over every run no turn strands a task if and only if every drain keeps to that |
| `Microtasks.TaskArms` | gatling-rest/src/main/resources/static/polyfills.f6ae3e8b63939c618130.js:1 | reporting that schedules inside a task strands nothing if a task of the same drain has asked for another one, and does otherwise |
| `Microtasks.Queue.Play` | gatling-rest/src/main/resources/static/polyfills.f6ae3e8b63939c618130.js:1 | over every run what has run followed by what is queued is the order of arrival, and no turn strands a task if and only if every drain keeps to its condition; safe reporting is enough for that |
| `TaskCounts.BumpCounts` | gatling-rest/src/main/resources/static/polyfills.f6ae3e8b63939c618130.js:1 | an update changes the count of every delegate on the roll by one and no other, and returns unless one would fall below zero |
| `TaskCounts.BumpTold` | gatling-rest/src/main/resources/static/polyfills.f6ae3e8b63939c618130.js:1 | every delegate is told exactly when a count leaves zero or comes back to it |
| `TaskCounts.RecountExact` | gatling-rest/src/main/resources/static/polyfills.f6ae3e8b63939c618130.js:1 | counting a task in or out keeps every count equal to the number of tasks counted, and never throws for a counted task |
| `TaskCounts.BeginScheduleInv` | gatling-rest/src/main/resources/static/polyfills.f6ae3e8b63939c618130.js:1 | starting to schedule keeps counts, rolls and call stack consistent |
| `TaskCounts.EndScheduleInv` | gatling-rest/src/main/resources/static/polyfills.f6ae3e8b63939c618130.js:1 | the end of a scheduling counts its task if no hook has given it another roll, keeps all consistent and never throws |
| `TaskCounts.FailScheduleInv` | gatling-rest/src/main/resources/static/polyfills.f6ae3e8b63939c618130.js:1 | a scheduling hook that throws leaves counts, rolls and call stack consistent |
| `TaskCounts.WithdrawInv` | gatling-rest/src/main/resources/static/polyfills.f6ae3e8b63939c618130.js:1 | withdrawing a request while its hooks run leaves them consistent |
| `TaskCounts.BeginRunInv` | gatling-rest/src/main/resources/static/polyfills.f6ae3e8b63939c618130.js:1 | starting a run keeps them consistent |
| `TaskCounts.EndRunInv` | gatling-rest/src/main/resources/static/polyfills.f6ae3e8b63939c618130.js:1 | ending a run keeps them consistent, whatever was done with its task in between |
| `TaskCounts.BeginCancelInv` | gatling-rest/src/main/resources/static/polyfills.f6ae3e8b63939c618130.js:1 | starting to cancel keeps them consistent |
| `TaskCounts.EndCancelInv` | gatling-rest/src/main/resources/static/polyfills.f6ae3e8b63939c618130.js:1 | the end of cancelling keeps them consistent, and throws exactly when its task has lost its roll |
| `TaskCounts.FailCancelInv` | gatling-rest/src/main/resources/static/polyfills.f6ae3e8b63939c618130.js:1 | a cancelling hook that throws leaves them consistent |
| `TaskCounts.RunInv` | gatling-rest/src/main/resources/static/polyfills.f6ae3e8b63939c618130.js:1 | every run keeps counts, rolls and call stack consistent |
| `TaskCounts.CountsAreExact` | gatling-rest/src/main/resources/static/polyfills.f6ae3e8b63939c618130.js:1 | over every run a delegate's count of a kind is the number of the active tasks of that kind that still have it on their roll, with those left unknown by a throwing cancel hook; it is never negative, and the delegate was told of every crossing of zero and of nothing else |
| `TaskCounts.EndRunThrows` | gatling-rest/src/main/resources/static/polyfills.f6ae3e8b63939c618130.js:1 | the end of a run throws if and only if its task is active without a roll, or is scheduled though this run had set it running |
| `TaskCounts.CancelledOnce` | gatling-rest/src/main/resources/static/polyfills.f6ae3e8b63939c618130.js:1 | a task cancelled while it runs is counted out once |
| `TaskCounts.Reentered` | gatling-rest/src/main/resources/static/polyfills.f6ae3e8b63939c618130.js:1 | a one-shot task run again within its own run is counted out once, and the outer run throws and leaves it running |
| `TaskCounts.Rescheduled` | gatling-rest/src/main/resources/static/polyfills.f6ae3e8b63939c618130.js:1 | a task scheduled again within the run it was cancelled in makes the end of that run throw and stays scheduled; a one-shot one has no roll then and is not counted, a repeating one is |
| `TaskCounts.TameStep` | gatling-rest/src/main/resources/static/polyfills.f6ae3e8b63939c618130.js:1 | every step but running a one-shot task, or scheduling any, within its own run keeps every active task on a roll and counted |
| `TaskCounts.EndsWellExactly` | gatling-rest/src/main/resources/static/polyfills.f6ae3e8b63939c618130.js:1 | from every state in which all active tasks are on a roll, a step leaves it so and what it ends returns if and only if it ends neither the run that set a task running which is scheduled again, nor another run of a one-shot task still active |
| `TaskCounts.StaysEnrolledExactly` | gatling-rest/src/main/resources/static/polyfills.f6ae3e8b63939c618130.js:1 | over every run, throwing hooks included, this holds throughout if and only if every step is of that kind |
| `TaskCounts.EnrolledCounts` | gatling-rest/src/main/resources/static/polyfills.f6ae3e8b63939c618130.js:1 | over every such run all scheduled, running and cancelling tasks are counted, and a count is the number of those on whose roll the delegate is, with the tasks left unknown by throwing cancel hooks |
| `TaskCounts.OrderlyEndsWell` | gatling-rest/src/main/resources/static/polyfills.f6ae3e8b63939c618130.js:1 | for that it is enough, when starting something, neither to run a one-shot task nor to schedule any task within its own run |
| `TaskCounts.OrderlyCounts` | gatling-rest/src/main/resources/static/polyfills.f6ae3e8b63939c618130.js:1 | so over every run that keeps to this all active tasks are counted, and counts are the numbers of those enrolled |
| `TaskSteps.StartsScheduling` | gatling-rest/src/main/resources/static/polyfills.f6ae3e8b63939c618130.js:1 | scheduling starts, with a roll of its own, exactly for a task that is not scheduled |
| `TaskSteps.EndsScheduling` | gatling-rest/src/main/resources/static/polyfills.f6ae3e8b63939c618130.js:1 | at the end of a scheduling the task is scheduled, on that roll and counted, unless it was withdrawn or scheduled again meanwhile |
| `TaskSteps.FailsScheduling` | gatling-rest/src/main/resources/static/polyfills.f6ae3e8b63939c618130.js:1 | a scheduling hook that throws leaves the task unknown and not counted |
| `TaskSteps.TakesBack` | gatling-rest/src/main/resources/static/polyfills.f6ae3e8b63939c618130.js:1 | exactly a task that is being scheduled can be withdrawn, and is not scheduled then |
| `TaskSteps.StartsRun` | gatling-rest/src/main/resources/static/polyfills.f6ae3e8b63939c618130.js:1 | a scheduled or running task runs, with one more in its run count; an event task that is not scheduled is passed over; for any other the call throws |
| `TaskSteps.EndsRun` | gatling-rest/src/main/resources/static/polyfills.f6ae3e8b63939c618130.js:1 | for every state of the invariant: the run that set a repeating task running leaves it scheduled, on the same roll and counted; a one-shot task is not scheduled then, has no roll, is not counted, and its run count is 0; any other run leaves a repeating task alone |
| `TaskSteps.StartsCanceling` | gatling-rest/src/main/resources/static/polyfills.f6ae3e8b63939c618130.js:1 | exactly a scheduled or running task can be cancelled |
| `TaskSteps.EndsCanceling` | gatling-rest/src/main/resources/static/polyfills.f6ae3e8b63939c618130.js:1 | cancelling leaves the task not scheduled, without roll, not counted and with run count 0, unless it had lost its roll |
| `TaskSteps.FailsCanceling` | gatling-rest/src/main/resources/static/polyfills.f6ae3e8b63939c618130.js:1 | a cancelling hook that throws leaves the task unknown, on its roll and counted |
| `TaskSteps.CountsFollow` | gatling-rest/src/main/resources/static/polyfills.f6ae3e8b63939c618130.js:1 | between two states of the invariant that differ in one task the counts differ by just that task |
| `TaskSteps.LifeOfOneShot` | gatling-rest/src/main/resources/static/polyfills.f6ae3e8b63939c618130.js:1 | a one-shot task that is scheduled and runs is as good as new, and all counts are what they were |
| `TaskSteps.StaysScheduled` | gatling-rest/src/main/resources/static/polyfills.f6ae3e8b63939c618130.js:1 | a repeating task that is scheduled and runs any number of times is still scheduled, and the delegates of its roll count one task more |
| `TaskSteps.LifeOfRepeating` | gatling-rest/src/main/resources/static/polyfills.f6ae3e8b63939c618130.js:1 | cancelled after that it is as good as new, and all counts are what they were |
| `ZoneTaskObjects.ZoneDelegate.UpdateTaskCount` | gatling-rest/src/main/resources/static/polyfills.f6ae3e8b63939c618130.js:1 | one delegate: the count changes by the given amount and the hook is called exactly on crossings |
| `ZoneTaskObjects.ZoneTask.TransitionTo` | gatling-rest/src/main/resources/static/polyfills.f6ae3e8b63939c618130.js:1 | a task changes state only from an expected one, and loses its roll when it is not scheduled |
| `ZoneTaskObjects.Zones.UpdateAll` | gatling-rest/src/main/resources/static/polyfills.f6ae3e8b63939c618130.js:1 | the loop over the roll updates every delegate in order |
| `ZoneTaskObjects.Zones.RecountTask` | gatling-rest/src/main/resources/static/polyfills.f6ae3e8b63939c618130.js:1 | counting in and out on objects is the step of the model |
| `ZoneTaskObjects.Zones.Enroll` | gatling-rest/src/main/resources/static/polyfills.f6ae3e8b63939c618130.js:1 | the roll is the chain of zones upwards that have the hook in or above them, each once |
| `ZoneTaskObjects.Zones.BeginScheduling` | gatling-rest/src/main/resources/static/polyfills.f6ae3e8b63939c618130.js:1 | `scheduleTask` before the hooks: exactly a task that is not scheduled is being scheduled now, on a new roll; all writes are the step of the model |
| `ZoneTaskObjects.Zones.EndScheduling` | gatling-rest/src/main/resources/static/polyfills.f6ae3e8b63939c618130.js:1 | `scheduleTask` after the hooks: a task still being scheduled on this roll is scheduled and counted; all writes are the step of the model |
| `ZoneTaskObjects.Zones.BeginRunning` | gatling-rest/src/main/resources/static/polyfills.f6ae3e8b63939c618130.js:1 | `runTask` before the callback: a scheduled or running task runs with one more in its run count, and any other is left alone; all writes are the step of the model |
| `ZoneTaskObjects.Zones.EndRunning` | gatling-rest/src/main/resources/static/polyfills.f6ae3e8b63939c618130.js:1 | the `finally` of `runTask`: a running task that repeats is scheduled again by the run that set it running, with its fields as they were; a one-shot one is counted out, and not scheduled then; all writes are the step of the model, in all its branches |
| `ZoneTaskObjects.Zones.BeginCanceling` | gatling-rest/src/main/resources/static/polyfills.f6ae3e8b63939c618130.js:1 | `cancelTask` before the hooks: exactly a scheduled or running task is being cancelled now; all writes are the step of the model |
| `ZoneTaskObjects.Zones.EndCanceling` | gatling-rest/src/main/resources/static/polyfills.f6ae3e8b63939c618130.js:1 | `cancelTask` after the hooks: if it returns, the task is not scheduled, without roll, not counted and with run count 0; all writes are the step of the model, throwing included |
| `ZoneTaskObjects.Zones.FailScheduling` | gatling-rest/src/main/resources/static/polyfills.f6ae3e8b63939c618130.js:1 | a scheduling hook that throws leaves a task that is being scheduled, or was withdrawn, unknown; all writes are the step of the model |
| `ZoneTaskObjects.Zones.FailCanceling` | gatling-rest/src/main/resources/static/polyfills.f6ae3e8b63939c618130.js:1 | a cancelling hook that throws leaves the task unknown; all writes are the step of the model |
| `ZoneTaskObjects.Zones.CancelScheduleRequest` | gatling-rest/src/main/resources/static/polyfills.f6ae3e8b63939c618130.js:1 | exactly a task that is being scheduled is withdrawn; all writes are the step of the model |
| `ZoneTaskObjects.Zones.Perform` | gatling-rest/src/main/resources/static/polyfills.f6ae3e8b63939c618130.js:1 | every step on objects is the step of the state machine, and keeps its invariant |
| `ZoneTaskObjects.Zones.ScheduleTask` | gatling-rest/src/main/resources/static/polyfills.f6ae3e8b63939c618130.js:1 | scheduling a task in a zone is the step with the chain of zones upwards from there |
| `ZoneTaskObjects.Zones.FieldsAreExact` | gatling-rest/src/main/resources/static/polyfills.f6ae3e8b63939c618130.js:1 | after every run the fields of a delegate are the numbers of the tasks that it counts |
| `ZoneTaskObjects.PlayedIsRun` | gatling-rest/src/main/resources/static/polyfills.f6ae3e8b63939c618130.js:1 | what the commands of a script mean, one after the other, is a run of the state machine |
| `ZoneTaskObjects.Page.Execute` | gatling-rest/src/main/resources/static/polyfills.f6ae3e8b63939c618130.js:1 | a command has the effect that it means: it makes the zone or task it asks for, or takes the step it names for the task that it names, and does nothing if that has not been made |
| `ZoneTaskObjects.Page.Play` | gatling-rest/src/main/resources/static/polyfills.f6ae3e8b63939c618130.js:1 | every command of a program has the effect that it means, one after the other, and so the program is a run of the state machine |

## Left out

- Floating point: numbers are exact; rounding, NaN, infinity and overflow are not modelled, except that a leaf of chart data or a path parameter may be no number.
- Bounds.GetBounds: `safeIncrement` and `roundWithPrecision` are the identity on exact numbers, so removing equal rounded ticks is not modelled.
- Axis.AutoScale: `highLow` given in the options is not modelled.
- Bars.PlainChart: no high or low set in the options, as for all scales here; the place of a bar along the other axis, and `distributeSeries`, are not modelled.
- Bars.StackedChart: the same; bars whose stack mode is `overlap` are drawn as plain ones on the scale of a stacked chart, which is not modelled.
- Interpolation.MonotoneCubic: the single segments of Interpolation.CannotDraw are not drawn, since the code divides by the width 0 of a step; a quotient by 0 in the slopes, which the code sets to 0, is modelled.
- PathText.ParseStringify: parameters are numbers, printed in plain decimal form; exponent and hexadecimal forms, and printing without rounding (accuracy 0 or false), are not modelled.
- SvgPaths.Join: paths share element objects with the joined path in the code; elements are values here, so changing one in both is not modelled.
- SvgPaths.SvgPath.Parse: paths are always given as strings.
- Escaping.RoundTripExactly: the string layer only; numbers, objects and what `JSON.parse` makes of the result are not modelled.
- Keys.MetaStore.FastKeyOf: keys are compared by identity, so NaN and negative zero are not told apart from other keys of the same printed form.
- ModuleCache.RequireReturns: a factory is the list of modules it requires and whether it throws; exports, and factories that catch an exception of a nested require, are not modelled.
- ChunkLoading.OrderIndependent: factories push no chunks; the parent page's own push and pending promises of lazily loaded chunks are not part of this model.
- PromiseRuns.EachReactionOnce: `finally`, `race` and `all` are not modelled; whether reading `then` of a value throws or gives a function is fixed for each value.
- PromiseRuns.UncaughtExactly: the handlers for unhandled and late-handled rejections are not modelled; the call of the scheduler without a task, which only asks for a native drain, is not either.
- Microtasks.Queue.Drain: tasks schedule finitely many others, so every drain ends; a task is what it does until it returns or throws.
- TaskCounts.CountsAreExact: hooks put their delegates on the roll before they do anything else; `isPeriodic` does not change during the life of a task; the check that a task is run and cancelled in its own zone, and the one against scheduling it in a descendant zone, are not modelled.
- ZoneTaskObjects.Zones.Enroll: every hook passes the task on to its parent once.
- Scaling, translating and transforming paths, step and simple interpolation, grids, labels and events of charts, pie and line charts: element by element, with nothing to keep.
- Patching of browser interfaces, user-supplied hooks beyond the defaults, and the interoperability helpers of the webpack runtime.
- The Java back end and the Angular components: calls into libraries that are not part of this model.
