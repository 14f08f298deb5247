# Client-side state machines of the site, modelled and proved in Dafny

The repository is a Drupal site. Most of its client code is plumbing around the
browser, but some files hold real algorithms. This project models those and
proves what they are for, on every input and over every run.

- **Table drag** (`core/misc/tabledrag.es6.js`). A draggable table is a forest
  written as a list of rows with depths. `Forest` holds the forest theory,
  `TableMoves` the operations on one dragged group, `TableFields` what a drop
  writes back, `TableRuns` whole sessions, `TableMeaning` what each operation comes
  to, said without its own definition, and `TableDrag` the row object with its
  loops and updates in place, proved against the pure operations. While a group is
  dragged the rest of the table stands still, so the state is the rest, the group
  and the place of the group in the rest.
- **Form states** (`core/misc/states.es6.js`). `StateNames` normalises names,
  `Constraints` and `ConstraintMeaning` evaluate constraint trees, `Dependents`
  has the evaluation loops and the dry run, and `Network` pushes a change through
  dependents that listen to one another.
- **Callbacks, Deferred and when** (jQuery 1.7.1 in `libraries/datatables/jquery.js`).
  `Callbacks` and `CallbackList` are the re-entrant list, `CallbackTurns` is about
  lists that fire again and again and `CallbackEnds` about those that fire once or are
  locked; `Deferred`, `DeferredRuns` and `DeferredProgress` are three such lists wired
  together, and `When` is the join. What a callback does happens between two steps, so
  adds and fires during a callback are ordinary steps of a run.
- **Tabbing manager** (`core/misc/tabbingmanager.es6.js`): `Tabbing`.
- **Placeholders** (`core/misc/drupal.es6.js`): `StringReplace`, `Placeholders`.
- **Autocomplete fields** (`core/misc/autocomplete.es6.js`): `Autocomplete`.
- **Debounce and announcements** (`core/misc/debounce.es6.js`,
  `core/misc/announce.es6.js`): `Debounce`, `Announce`.
- **Collision handling** (`core/misc/position.es6.js`): `Position`.

`dafny verify dfyconfig.toml` checks everything.

## Main results

- A subtree put anywhere into a well-formed table keeps the table a forest, and
  itself one subtree, **if and only if** its depth is in the interval that
  `validIndentInterval` computes from the true neighbours (`Forest.PlacementIff`);
  then every other row keeps its depth and every row but the dragged one its parent
  (`Forest.FrameTheorem`, `TableRuns.DragIsFramed`).
- The interval of a place, depth limit included, holds exactly the depths at which the
  group may stand there (`TableMeaning.IntervalIsExact`); an indent goes to the one
  nearest to the proposal (`TableMoves.IndentGoesNearest`), an arrow key past exactly one
  row (`TableMeaning.ArrowsTakeOneRow`), and a mouse move beside the row under the pointer
  (`TableMeaning.PointerLands`).
- The forest property is false of arbitrary mouse runs and of the keyboard under a
  depth limit. `TableRuns.PointerCanBreakTheForest` and
  `TableRuns.DepthLimitCanCaptureARow` show it. For every kind of step, from any legal
  state and with any cached interval, stale or not, `TableRuns.MoveIff` says on the
  input exactly when the step is harmless (`TableRuns.PointerMoveIff` for the mouse,
  rejected swaps included, `TableRuns.VerticalKeyIff` for the arrow keys). From any
  well-formed table, whatever its fields and weights say, and over a run of any length,
  the table is a forest at every moment **if and only if** every step is harmless
  (`TableRuns.RunsKeepTheTree`).
- Writing back only the dropped row's parent field and its siblings' weights is
  enough, over every such run. Parent fields that were right stay right
  (`TableRuns.RunsKeepParentFields`). Weights may tie at the start, as they do where all
  of them are the default 0: they never come to decrease along a list of siblings, and
  every list a row has been dropped into strictly increases from then on
  (`TableRuns.RunsKeepWeights`). No condition on the number of top-level groups is
  needed: a group that is the whole table cannot change, so there is nothing to drop.
- Some runs need no condition: arrow keys without a depth limit or on a row without
  children (`TableRuns.KeyboardKeepsTheForest`), and anything at all done to a root
  row (`TableRuns.RootRowsAreSafe`). The depth limit itself holds for all runs
  (`TableRuns.DepthLimitHolds`).
- Propagation through an acyclic network ends at rest with one event per change of
  verdict (`Network.Net.Change`), each telling its listeners the verdict as the state
  requires, turned round for inverted states; and rest is unique for given inputs, so
  listener order does not matter (`Network.VerdictsAreDetermined`).
- A "once memory" list calls everything exactly once and in order however adds,
  fires, locks and disables interleave (`Callbacks.ExactlyOnce`, and as a promise of
  the object `CallbackList.CallbackList`). A list without "once" loses no fire: those made
  while callbacks run take their turns in order, each with its own arguments and for
  every function then on the list (`CallbackTurns.NoFireIsLost`,
  `CallbackTurns.TurnsEndComplete`). A Deferred is settled by the first resolve
  or reject, for good, and runs that side only, with those arguments
  (`DeferredRuns.OneSideOnly`, `DeferredRuns.StatusIsFinal`). Until then every notification
  gets through; afterwards the latest one is still delivered to whom it has not reached,
  and to functions added later, and to no other avail
  (`DeferredProgress.NotificationsGetThrough`, `DeferredProgress.ProgressAfterSettling`).
- Tabbing contexts may be released in any order: of all contexts ever handed out only
  the top of the stack is active, and the page is restored exactly when all of them
  have been released (`Tabbing.Session` over every interleaving,
  `Tabbing.Manager.AllReleasedMeansRestored`).
- The verdict on a constraint tree does not depend on the order of the children of any
  of its groups (`ConstraintMeaning.OrderDoesNotMatter`).
- A split is exactly the trimmed pieces between the commas outside quotes
  (`Autocomplete.SplitCuts`), and choosing a suggestion replaces the last term and no
  other, **if and only if** the suggestion is itself a term (`Autocomplete.SelectHandler`).
  Splitting undoes joining if and only if the list is one a split can produce, other
  than the list of one empty term (`Autocomplete.SplitUndoesJoinIff`).
- Multi-pass substitution is one pass (`StringReplace.SubstitutionIsOnePass`), and
  for sigiled keys one longest-match scan (`Placeholders.ReplaceIsScan`). Arguments come
  out as their keys promise, escaped so that they can be read back
  (`Placeholders.FormatKeepsPromises`).
- `fit` contains an element no larger than its container unless the container begins
  before the origin of the page (`Position.FitContainsIff`, with the exact condition);
  a flip lands on the mirror image (`Position.FlipMirrors`), but it does not always
  show more of the element (`Position.FlipHidesMoreIff`).

## Model

| member | source | states |
|---|---|---|
| `Forest.PlacementIff` | core/misc/tabledrag.es6.js:1461-1498 | a group put between two rows leaves a well-formed table with the group one exact subtree if and only if its depth lies between the next row's depth and what the previous row allows |
| `Forest.SubtreeComesOut` | core/misc/tabledrag.es6.js:1433-1445 | taking a whole subtree out of a well-formed table leaves a well-formed table into which it fits back |
| `Forest.ParentOneLevelUp` | core/misc/tabledrag.es6.js:1051-1066 | the nearest shallower row above is exactly one level up, and is missing exactly for top-level rows |
| `Forest.FrameTheorem` | core/misc/tabledrag.es6.js:1347-1546 | wherever a subtree is legally put and however it is indented, the table is a well-formed permutation, rows outside keep depth and parent, rows inside keep their parent |
| `Forest.ParentOutside` | core/misc/tabledrag.es6.js:1468-1487 | no row outside a legally placed group changes its parent |
| `Forest.ParentInside` | core/misc/tabledrag.es6.js:1433-1445 | a row inside the group has its parent inside the group, wherever the group stands |
| `Forest.LeavesHaveNoChildren` | core/misc/tabledrag.es6.js:1483-1486 | a row marked as a leaf is nobody's parent in a well-formed table |
| `TableMoves.IndentGoesNearest` | core/misc/tabledrag.es6.js:1511-1546 | an indent leads to the depth of the interval nearest to the proposal, or to its upper end where it is empty; only the group's depth changes, and that is marked exactly when it does |
| `TableMoves.IndentKeepsLimit` | core/misc/tabledrag.es6.js:1511-1546 | indenting with any cached interval keeps every depth within the limit, `groupDepth` true and `groupDepth - indents` constant |
| `TableMoves.PointerKeepsLimit` | core/misc/tabledrag.es6.js:754-809 | so does any mouse move, with the swap accepted or rejected |
| `TableMoves.ValidIntervalIsSafe` | core/misc/tabledrag.es6.js:1461-1498 | any interval computed from any rows of a table within the limit is safe for the group |
| `TableMoves.GrabIsTracked` | core/misc/tabledrag.es6.js:1304-1335 | a new row object knows its group's greatest depth, and no row of the group is shallower than its head |
| `TableMoves.GrabTakesApart` | core/misc/tabledrag.es6.js:1347-1386 | a row and its deeper followers are cut out, and putting them back gives the table; the new row object has no interval and no change |
| `TableMoves.MaxDepth` | core/misc/tabledrag.es6.js:1327-1333 | an upper bound of all depths of the group that is reached |
| `TableFields.SiblingsShareTheParent` | core/misc/tabledrag.es6.js:1560-1597 | the two walks collect exactly the rows with the same parent |
| `TableFields.SiblingsIncrease` | core/misc/tabledrag.es6.js:1589-1595 | and list them in table order |
| `TableFields.ParentSourceIsTheParent` | core/misc/tabledrag.es6.js:1053-1081 | the value found for the parent field names the tree parent, also when it is copied from another top-level row |
| `TableFields.WeightsAssigned` | core/misc/tabledrag.es6.js:1138-1151 | the weights of the siblings are consecutive, and nothing else changes |
| `TableFields.DroppedRow` | core/misc/tabledrag.es6.js:819-851 | a drop changes only the dropped row's parent field and the weights of its siblings |
| `TableFields.DropKeepsTree` | core/misc/tabledrag.es6.js:819-851 | a drop leaves every depth and every tree parent alone |
| `TableFields.DropNamesParents` | core/misc/tabledrag.es6.js:1000-1113 | if every other parent field named its tree parent, every one does after the drop |
| `TableFields.DropOrdersWeights` | core/misc/tabledrag.es6.js:1115-1151 | after a drop the siblings of the dropped row have strictly increasing weights, and every other list keeps its order, tied or strict |
| `TableRuns.DepthLimitHolds` | core/misc/tabledrag.es6.js:754-809 | over every run of grabs, keys, mouse moves and drops no depth is negative or above the limit |
| `TableRuns.RunsKeepTheTree` | core/misc/tabledrag.es6.js:754-871 | from every well-formed table and over every run of grabs, keys, mouse moves and drops the table is a forest at every moment, with the held group one subtree, if and only if every step is harmless; and then it is a forest when the row is let go |
| `TableRuns.RunsKeepParentFields` | core/misc/tabledrag.es6.js:819-851 | over every harmless run from a table whose parent fields name the tree parents they do so whenever no row is held, whatever the weights |
| `TableRuns.RunsKeepWeights` | core/misc/tabledrag.es6.js:1138-1151 | over every harmless run weights that do not decrease along any list of siblings never come to, strictly increasing lists stay so, and every list dropped into strictly increases from then on, whatever the parent fields |
| `TableRuns.RunsKeepConsistency` | core/misc/tabledrag.es6.js:819-871 | a table with right parent fields and strictly increasing weights is one again after every harmless run |
| `TableRuns.MoveIff` | core/misc/tabledrag.es6.js:754-809 | every step of every kind, from any legal state with any cached interval, within the depth limit or not, keeps the forest and the group one subtree if and only if it is harmless, which is said of the state before the step |
| `TableRuns.MovedIsPlaced` | core/misc/tabledrag.es6.js:1433-1546 | a harmless step leads from a legally placed group to a legally placed one whose `indents` is its head's depth |
| `TableRuns.DragIsFramed` | core/misc/tabledrag.es6.js:1347-1546 | in any table with unique ids one drag of any length of harmless moves leaves every other row's depth and parent alone and the group one subtree |
| `TableRuns.KeyIsHarmless` | core/misc/tabledrag.es6.js:516-647 | with no depth limit, or for a row without children, every arrow key is harmless |
| `TableRuns.KeyboardKeepsTheForest` | core/misc/tabledrag.es6.js:516-647 | then every sequence of arrow keys keeps the forest at every moment, whatever fields and weights say, and the cached interval is the one of the present place |
| `TableRuns.RootRowsAreSafe` | core/misc/tabledrag.es6.js:1476-1484 | in any table a root row keeps the forest under any run of keys and mouse moves, rejected swaps and stale intervals included |
| `TableRuns.VerticalKeyIff` | core/misc/tabledrag.es6.js:580-585 | an up or down step keeps the forest and the subtree if and only if the interval at the new place is not empty |
| `TableRuns.PointerMoveIff` | core/misc/tabledrag.es6.js:777-804 | a mouse move does so if and only if, before the move: a permitted swap is not one over the row below that would lift the group past what the row above allows; a rejected swap leaves an interval whose upper end is legal; without a swap the cached interval leads to a legal depth |
| `TableRuns.HitNeighbours` | core/misc/tabledrag.es6.js:1397-1414 | when both neighbours lie outside the group, the interval computed for a swap is the one of the place the group lands in |
| `TableRuns.RootUpThenDown` | core/misc/tabledrag.es6.js:558-575 | up moves a root row past exactly one top-level block, and down undoes it |
| `TableRuns.RootDownThenUp` | core/misc/tabledrag.es6.js:616-634 | down moves a root row past exactly one top-level block, and up undoes it |
| `TableRuns.PointerCanBreakTheForest` | core/misc/tabledrag.es6.js:1402-1414 | a concrete drag whose neighbour lies in its own group ends in a table that is no forest |
| `TableRuns.DepthLimitCanCaptureARow` | core/misc/tabledrag.es6.js:1489-1494 | a concrete press of the up key under a depth limit gives another row a new parent |
| `TableMeaning.IntervalIsExact` | core/misc/tabledrag.es6.js:1461-1498 | a depth is in the interval of a place if and only if the group put there at that depth leaves a forest with the group one subtree and no row of it beyond the limit |
| `TableMeaning.ArrowsTakeOneRow` | core/misc/tabledrag.es6.js:580-640 | an arrow key takes a row that is not a root row past exactly one row, to the allowed depth there nearest to its own |
| `TableMeaning.ArrowsStopAtTheEnds` | core/misc/tabledrag.es6.js:545-610 | at the end of the table the key towards it changes nothing |
| `TableMeaning.RootRowsKeepTheirDepth` | core/misc/tabledrag.es6.js:558-575 | a key changes nothing of a root row but its place |
| `TableMeaning.PointerLands` | core/misc/tabledrag.es6.js:777-804 | over another row a permitted swap puts the group right after or right before it, a rejected one leaves it in place, and the interval of the swap decides the depth |
| `TableMeaning.PointerIndents` | core/misc/tabledrag.es6.js:925-976 | over no row or its own the group is only indented |
| `TableMeaning.PutDownAgain` | core/misc/tabledrag.es6.js:819-851 | picking a row up and putting it down changes nothing |
| `TableMeaning.ParentValueIs` | core/misc/tabledrag.es6.js:1053-1081 | the value for the parent field is the id of the nearest shallower row above, or what the first row outside the group says, also when fields are stale |
| `TableMeaning.FirstKeepsItsWeight` | core/misc/tabledrag.es6.js:1138-1151 | the first of the siblings keeps its own weight in a drop |
| `TableMeaning.NextIsOneHeavier` | core/misc/tabledrag.es6.js:1138-1151 | each further sibling is one heavier than the one before it |
| `TableDrag.FindChildren` | core/misc/tabledrag.es6.js:1367-1379 | the rows found with a row are exactly its subtree |
| `TableDrag.FindGroupDepth` | core/misc/tabledrag.es6.js:1327-1333 | the greatest depth of the group |
| `TableDrag.FindSiblings` | core/misc/tabledrag.es6.js:1560-1597 | the list of rows with the same parent, in increasing order |
| `TableDrag.FindParentValue` | core/misc/tabledrag.es6.js:1053-1081 | the value for the parent field |
| `TableDrag.RowObject.constructor` | core/misc/tabledrag.es6.js:1304-1335 | a new row object is the grabbed row with its subtree |
| `TableDrag.RowObject.ShiftGroup` | core/misc/tabledrag.es6.js:1526-1537 | one indentation at a time, every row of the group is shifted by the whole difference |
| `TableDrag.RowObject.Indent` | core/misc/tabledrag.es6.js:1511-1546 | the group moves to the allowed depth nearest to the proposal, where it stands; the difference is returned and marked as a change exactly when there is one |
| `TableDrag.RowObject.Swap` | core/misc/tabledrag.es6.js:1433-1445 | the group moves to another place and nothing else does |
| `TableDrag.RowObject.IsValidSwap` | core/misc/tabledrag.es6.js:1397-1423 | the interval is stored in any case and the answer is whether it is non-empty |
| `TableDrag.RowObject.KeyUp` | core/misc/tabledrag.es6.js:545-591 | the up arrow: a row that is not a root row goes up by exactly one place, and at the top nothing changes |
| `TableDrag.RowObject.KeyDown` | core/misc/tabledrag.es6.js:603-646 | the down arrow: a row that is not a root row goes down by exactly one place, and at the bottom nothing changes |
| `TableDrag.RowObject.TrySwap` | core/misc/tabledrag.es6.js:925-976 | no swap with a row of the group, nor when the interval is empty |
| `TableDrag.RowObject.DragRow` | core/misc/tabledrag.es6.js:754-809 | a swap if one is permitted, then an indent |
| `TableDrag.RowObject.Drop` | core/misc/tabledrag.es6.js:819-851 | fields are written back exactly when the row object has changed |
| `StateNames.Normalize` | core/misc/states.es6.js:588-611 | the constructor's loops end for every string, in the normal form or in the throw |
| `StateNames.NormalFormKeepsMeaning` | core/misc/states.es6.js:588-651 | under every reading of names that respects the alias table, a name means its normal name, negated as the invert flag says |
| `StateNames.NormalFormIsIdempotent` | core/misc/states.es6.js:604-609 | normal names are their own normal form; normalisation throws exactly on names every object inherits |
| `StateNames.AliasesAreOneStep` | core/misc/states.es6.js:638-651 | no alias leads to another alias, to a double negation or to an inherited name |
| `StateNames.MarkNegates` | core/misc/states.es6.js:596-602 | an exclamation mark more gives the same name with the other flag |
| `StateNames.OppositesOfUse` | core/misc/states.es6.js:638-651 | enabled and disabled, optional and required, readwrite and readonly are one state each with opposite flags |
| `StateNames.OppositesOfContent` | core/misc/states.es6.js:638-651 | so are filled and empty, unchecked and checked, invalid and valid |
| `StateNames.OppositesOfSight` | core/misc/states.es6.js:638-651 | so are invisible and visible, untouched and touched, irrelevant and relevant |
| `StateNames.OppositesOfFolding` | core/misc/states.es6.js:638-651 | so are expanded and collapsed, for which open and closed are other names |
| `StateNames.InheritedNamesThrow` | core/misc/states.es6.js:604-606 | `toString` and the other names every object inherits make the constructor throw |
| `Constraints.ComparisonAnswers` | core/misc/states.es6.js:54-60 | against a reference value the comparison always answers: an unknown value meets anything and a number is met by its text |
| `Constraints.DryRunSeesAll` | core/misc/states.es6.js:409-431 | with the recorder in place evaluation never stops early, returns undefined and records every leaf in order |
| `Constraints.LooksOnlyAtLeaves` | core/misc/states.es6.js:236-248 | a real evaluation under any values looks only at leaves of the tree |
| `ConstraintMeaning.PositionsAddNothing` | core/misc/states.es6.js:383-384 | a key that begins with a digit, or a place in an array, leaves the group under it to be verified as it is |
| `ConstraintMeaning.FirstKeyIsTheSelector` | core/misc/states.es6.js:385-389 | the first other key is the selector for what is under it |
| `ConstraintMeaning.LeafVerdict` | core/misc/states.es6.js:391-395 | under a selector the verdict is whether the value of the normalised state meets the reference, turned round if the name is an opposite; nothing else is looked at |
| `ConstraintMeaning.MarkTurnsTheVerdict` | core/misc/states.es6.js:391-395 | an exclamation mark before the name turns the verdict round |
| `ConstraintMeaning.VerifyMeans` | core/misc/states.es6.js:313-399 | on a tree without empty groups whose state names all normalise evaluation returns a boolean: all for objects, some for arrays, exactly one for arrays with 'xor' |
| `ConstraintMeaning.ItemsMeanXor` | core/misc/states.es6.js:315-333 | the short-circuiting 'xor' loop counts to exactly one |
| `ConstraintMeaning.ItemsMeanOr` | core/misc/states.es6.js:315-333 | the short-circuiting 'or' loop finds whether any alternative holds |
| `ConstraintMeaning.FieldsMeanAll` | core/misc/states.es6.js:338-353 | the short-circuiting object loop finds whether all fields hold |
| `ConstraintMeaning.OrderDoesNotMatter` | core/misc/states.es6.js:313-356 | shuffling the children of any groups of the tree, at all depths at once, does not change the verdict |
| `ConstraintMeaning.ReorderedMeansTheSame` | core/misc/states.es6.js:313-399 | a reordered tree holds under the same values and has an empty group exactly when the first has one |
| `Dependents.VerifyConstraints` | core/misc/states.es6.js:313-356 | the evaluation as it runs; every value it reads has been initialised |
| `Dependents.VerifyArray` | core/misc/states.es6.js:315-334 | the array loop returns the result and the lookups made |
| `Dependents.VerifyObject` | core/misc/states.es6.js:338-354 | the object loop returns the result and the lookups made |
| `Dependents.CheckConstraints` | core/misc/states.es6.js:380-399 | a child is a group, a group under a new selector, or a leaf |
| `Dependents.Dependent.GetDependees` | core/misc/states.es6.js:409-431 | the recorded dependees are exactly the leaves |
| `Dependents.Dependent.constructor` | core/misc/states.es6.js:134-143 | exactly the leaves are initialised, from the page, and the first verdict is stored |
| `Dependents.Dependent.Evaluate` | core/misc/states.es6.js:275-277 | the verdict on the current values, with no missing entry |
| `Network.Net.Update` | core/misc/states.es6.js:262-268 | a delivered value brings its slot in sync, and afterwards every dependent is settled again |
| `Network.Net.Reevaluate` | core/misc/states.es6.js:275-296 | a dependent with new values settles, tells its listeners, and leaves lower-ranked dependents alone |
| `Network.Net.Trigger` | core/misc/states.es6.js:290-294 | after all listeners have been called every slot holds what its source last said |
| `Network.Net.Change` | core/misc/states.es6.js:207-209 | one change from outside ends with all verdicts current and one event per change of verdict; every event and every listener has the verdict as the state requires: undefined without one, else whether the state is on, which for an inverted state is when the constraints fail |
| `Network.ListenersHeed` | core/misc/states.es6.js:285-294 | in a network at rest a listener holds true exactly when the verdict it listens to is true, or false for an inverted state; and so for false and undefined |
| `Network.VerdictsAreDetermined` | core/misc/states.es6.js:262-296 | two networks at rest with the same inputs agree on every verdict |
| `Network.VerifyAgrees` | core/misc/states.es6.js:236-248 | an evaluation depends only on the values of the leaves |
| `Callbacks.ExactlyOnce` | libraries/datatables/jquery.js:2 | in every run of a "once memory" list, with locks and disables, the calls are a prefix of the functions added before it was closed, each once, in order, with the first fire's arguments, and all of them when the list is idle after firing and not closed |
| `Callbacks.DisabledForGood` | libraries/datatables/jquery.js:2 | a disabled list, whatever its flags, never calls anything again in any run |
| `Callbacks.LockedIgnoresFires` | libraries/datatables/jquery.js:2 | in any run of a locked list leaving out all fires makes no difference |
| `Callbacks.AddKeepsOnce` | libraries/datatables/jquery.js:2 | functions added before, during or after firing join at the end of what will be called |
| `Callbacks.FireKeepsOnce` | libraries/datatables/jquery.js:2 | the first fire starts the calls and later ones change nothing |
| `Callbacks.ReturnKeepsOnce` | libraries/datatables/jquery.js:2 | each return completes one call and starts the next |
| `CallbackTurns.NoFireIsLost` | libraries/datatables/jquery.js:2 | in every run of a list without "once", until it is locked or disabled, the calls are those of a sequence of turns: every fire has its turn, in order, with its own arguments; a turn over has reached every function on the list when the fire was made, the one under way goes to the end of the list as it stands; fires put off are exactly those not yet taken, and none is left when the list is idle |
| `CallbackTurns.TurnsEndComplete` | libraries/datatables/jquery.js:2 | whenever a step of a run ends a turn, that turn has reached every function on the list at that moment, and the rest of the run does not change it |
| `CallbackTurns.FireTurns` | libraries/datatables/jquery.js:2 | a fire on an idle list takes its turn at once, one on a firing list is put off behind the others |
| `CallbackTurns.AddTurns` | libraries/datatables/jquery.js:2 | functions added while firing belong to the turn under way; on an idle list that remembers they get a turn with the latest arguments |
| `CallbackTurns.ReturnTurns` | libraries/datatables/jquery.js:2 | a return makes the turn's next call or ends the turn, and then the first fire put off is taken up |
| `CallbackEnds.OnceIsOnce` | libraries/datatables/jquery.js:2 | in every run of a "once" list without "memory" only the first fire calls anything: a prefix of the functions added, each once, in order, with its arguments; when it is over, everything on the list at the fire has been called and the list is disabled |
| `CallbackEnds.LockFinishesTheTurn` | libraries/datatables/jquery.js:2 | a "memory" list locked after a fire finishes the turn under way, calls functions added later with the same arguments, each once and in order, and drops the fires put off |
| `CallbackList.CallbackList.constructor` | libraries/datatables/jquery.js:2 | an empty list that has never fired, and keeps its promise |
| `CallbackList.CallbackList.Add` | libraries/datatables/jquery.js:2 | functions added before, during or after firing join at the end of what is called; a "once memory" list has then called exactly what it should, each once and in order |
| `CallbackList.CallbackList.FireWith` | libraries/datatables/jquery.js:2 | the first fire of a "once memory" list settles the arguments of all its calls, and the list still delivers each function once |
| `CallbackList.CallbackList.Return` | libraries/datatables/jquery.js:2 | a return goes on to the next function or ends the firing with everything delivered |
| `CallbackList.CallbackList.Lock` | libraries/datatables/jquery.js:2 | nothing is called by locking; in every run after it no fire makes any difference, and a list that had nothing to remember never calls anything again |
| `CallbackList.CallbackList.Disable` | libraries/datatables/jquery.js:2 | in every run after it nothing is called again; what was called before stays delivered |
| `DeferredRuns.OneSideOnly` | libraries/datatables/jquery.js:2 | in every run the first resolve or reject that gets through decides the side and the arguments; that side runs every function added to it once and in order with them, the other side nothing, and without one neither side runs anything |
| `DeferredRuns.StatusIsFinal` | libraries/datatables/jquery.js:2 | a state other than pending never changes again |
| `DeferredRuns.UndecidedFire` | libraries/datatables/jquery.js:2 | the first resolve or reject decides |
| `DeferredRuns.WonStep` | libraries/datatables/jquery.js:2 | no step changes which side won or with which arguments |
| `DeferredRuns.WonMeans` | libraries/datatables/jquery.js:2 | the losing side has called nothing, the winning side its functions in order with the winning arguments |
| `DeferredRuns.UsersHaveTheFloor` | libraries/datatables/jquery.js:2 | a Deferred takes adds and fires at all times but while its own three functions settle it |
| `DeferredProgress.NotificationsGetThrough` | libraries/datatables/jquery.js:2 | in every run without a resolve or reject each notification reaches the progress functions in turn, with its own arguments, none lost |
| `DeferredProgress.ProgressAfterSettling` | libraries/datatables/jquery.js:2 | once settled, the functions the latest notification has not reached and those added afterwards are called with its arguments, each once and in order, and nothing else; without one, nothing |
| `DeferredProgress.NotifyIsIgnored` | libraries/datatables/jquery.js:2 | in every run of a new Deferred, once its own functions have settled it, notify changes nothing |
| `When.When` | libraries/datatables/jquery.js:2 | a single promise is handed back as it is; otherwise the join accounts for every input already settled and for the progress each remembers, in argument order |
| `When.Join.Resolve` | libraries/datatables/jquery.js:2 | the join resolves with all values in argument order exactly when the last input resolves; the value of an input is its argument, or the list of all of them |
| `When.Join.Reject` | libraries/datatables/jquery.js:2 | the join is rejected by the first rejection |
| `When.Join.Plain` | libraries/datatables/jquery.js:2 | a plain value counts as resolved without settling the join |
| `When.Join.Notify` | libraries/datatables/jquery.js:2 | progress of an input is passed on, once and as the latest progress of all inputs in argument order, exactly while the join is open |
| `When.Join.Close` | libraries/datatables/jquery.js:2 | with nothing left to wait for the join resolves |
| `When.ExpectedIsUnique` | libraries/datatables/jquery.js:2 | for given events exactly one outcome of the join is right |
| `Tabbing.Manager.constructor` | core/misc/tabbingmanager.es6.js:36-47 | a manager with no contexts and the page untouched |
| `Tabbing.Manager.Constrain` | core/misc/tabbingmanager.es6.js:147-184 | a new active context on top, with the elements given as far as they are naturally reachable; the page is masked for it alone |
| `Tabbing.Manager.Release` | core/misc/tabbingmanager.es6.js:361-369 | any context ever handed out may be released, in any order; only released contexts leave the stack and the page is masked for the new top |
| `Tabbing.Manager.Unwind` | core/misc/tabbingmanager.es6.js:193-209 | the topmost unreleased context is active again |
| `Tabbing.Manager.Activate` | core/misc/tabbingmanager.es6.js:221-237 | exactly the reachable elements outside the set are saved and made unreachable |
| `Tabbing.Manager.Deactivate` | core/misc/tabbingmanager.es6.js:276-286 | every attribute is what it was and nothing is saved any more |
| `Tabbing.Manager.Record` | core/misc/tabbingmanager.es6.js:296-303 | the attributes of the listed elements are saved at the level |
| `Tabbing.Manager.Restore` | core/misc/tabbingmanager.es6.js:313-343 | an element saved at the level gets its attributes back and loses exactly that level and the levels directly above it, or everything at level 0 |
| `Tabbing.DeleteLevels` | core/misc/tabbingmanager.es6.js:333-340 | the level and the unbroken run of levels above it go, all others stay with their data |
| `Tabbing.Manager.ActivateContext` | core/misc/tabbingmanager.es6.js:376-384 | a released or active context is left alone |
| `Tabbing.Manager.DeactivateContext` | core/misc/tabbingmanager.es6.js:391-398 | only an active context has an effect, and afterwards the page is clean |
| `Tabbing.Manager.ReachesTheActiveSet` | core/misc/tabbingmanager.es6.js:221-237 | the tab key reaches exactly the active context's elements |
| `Tabbing.Session` | core/misc/tabbingmanager.es6.js:147-398 | under any interleaving of `constrain` and `release` the tab key reaches exactly the one active context's elements, and once every context handed out has been released every tabindex and autofocus is the original |
| `Tabbing.Manager.OnlyTheTopIsActive` | core/misc/tabbingmanager.es6.js:193-209 | of all contexts ever handed out only the top of the stack is active |
| `Tabbing.Manager.AllReleasedMeansRestored` | core/misc/tabbingmanager.es6.js:193-209 | the stack is empty exactly when every context ever handed out has been released, and then every tabindex and autofocus is the original and nothing is saved |
| `Tabbing.ReachableIff` | core/misc/tabbingmanager.es6.js:225-227 | the tab key passes over negative tabindexes, and over elements without one that are not reachable by nature |
| `StringReplace.ReplaceKeys` | core/misc/drupal.es6.js:317-346 | the recursion with its fragment loop computes the substitution |
| `StringReplace.SubstitutionIsOnePass` | core/misc/drupal.es6.js:301-346 | for non-empty keys the input is cut, independently of the values, into literals without any key and occurrences of the given keys, and exactly the occurrences are replaced |
| `StringReplace.TokensSpellTheInput` | core/misc/drupal.es6.js:336-345 | literals and keys spell out the input, whatever the keys |
| `StringReplace.ReplaceRendersTokens` | core/misc/drupal.es6.js:338-345 | replaced text is never searched again |
| `Placeholders.ReplaceIsScan` | core/misc/drupal.es6.js:317-346 | for sigiled keys in order of length the passes equal one scan from left to right replacing the longest match |
| `Placeholders.MatchIsLongest` | core/misc/drupal.es6.js:326-335 | the key taken first is the longest that matches |
| `Placeholders.CheckPlainIsEscape` | core/misc/drupal.es6.js:244-253 | the five replacements escape every character by itself |
| `Placeholders.CheckPlainRoundTrip` | core/misc/drupal.es6.js:244-253 | no markup character survives escaping and the text can be read back |
| `Placeholders.FormatIsOneScan` | core/misc/drupal.es6.js:275-299 | formatting replaces every longest placeholder by its processed argument in one scan |
| `Placeholders.FormatKeepsPromises` | core/misc/drupal.es6.js:275-299 | the text that takes a placeholder's place is escaped for `@`, the argument itself for `!`, and escaped inside the placeholder tag otherwise; escaped text has no markup and can be read back |
| `Placeholders.SortKeys` | core/misc/drupal.es6.js:324-328 | the keys in order of length, none lost |
| `Autocomplete.SplitValues` | core/misc/autocomplete.es6.js:20-45 | the scanner yields trimmed terms with commas only inside quotes, all but the last balanced |
| `Autocomplete.SplitIsProper` | core/misc/autocomplete.es6.js:20-45 | so does every split |
| `Autocomplete.SplitCuts` | core/misc/autocomplete.es6.js:20-45 | the terms are the pieces between the commas outside quotes, each without the spaces at its ends, and the pieces with those commas are the field |
| `Autocomplete.TrimTakes` | core/misc/autocomplete.es6.js:32-42 | trimming takes the spaces off both ends and nothing else |
| `Autocomplete.JoinGrows` | core/misc/autocomplete.es6.js:182 | joining puts a comma and a space before each further term |
| `Autocomplete.SplitUndoesJoinIff` | core/misc/autocomplete.es6.js:20-45 | splitting a joined list returns it if and only if it is such a list and not the list of one empty term |
| `Autocomplete.SelectHandler` | core/misc/autocomplete.es6.js:175-185 | the new field splits into as many terms as before, all but the last the same and the last the item, if and only if the item is proper and not an empty item alone |
| `Autocomplete.SelectReplacesLastIff` | core/misc/autocomplete.es6.js:175-185 | the same of the specification, term by term |
| `Autocomplete.LastTermIsTheItem` | core/misc/autocomplete.es6.js:58-60 | after a selection the last term is the item |
| `Debounce.RateBound` | core/misc/debounce.es6.js:29-48 | in every run and both modes invocations are at least `wait` apart |
| `Debounce.TrailingRuns` | core/misc/debounce.es6.js:34-42 | in trailing mode each invocation has the latest call's arguments after a quiet `wait`, and a call without an invocation has its timer running |
| `Debounce.EventuallyAnswered` | core/misc/debounce.es6.js:34-42 | left alone for `wait`, the last call has been answered |
| `Debounce.LeadingRuns` | core/misc/debounce.es6.js:40-45 | in immediate mode the first call is invoked at once, and each invocation is a call after a quiet `wait` |
| `Debounce.EventuallyLeads` | core/misc/debounce.es6.js:40-45 | in immediate mode, left alone for `wait` after any run, the next call is invoked at once |
| `Debounce.Debounced.Call` | core/misc/debounce.es6.js:32-47 | keeps invocations `wait` apart; in immediate mode the first call goes through at once and a later one only after a quiet `wait`; every call returns the result of the latest invocation |
| `Debounce.Debounced.Later` | core/misc/debounce.es6.js:34-39 | keeps invocations `wait` apart; in trailing mode it answers the latest call with its arguments after a quiet `wait` |
| `Announce.AnnouncementsAreConserved` | core/misc/announce.es6.js:50-116 | over every timed run each text is read exactly once, in call order, at most 200 ms after its call; a batch is assertive exactly when a member is |
| `Announce.WaitingIsBounded` | core/misc/announce.es6.js:105-116 | a queued text never waits longer than 200 ms and always has a timer to come |
| `Announce.Announcer.Say` | core/misc/announce.es6.js:105-116 | the text joins the others still to be read, none of which is lost, late or out of order, and has a timer due in 200 ms |
| `Announce.Announcer.Flush` | core/misc/announce.es6.js:50-81 | afterwards every text ever handed in has been read out, once and in call order; the live region shows the last batch, assertive exactly when one of it is, and is untouched when nothing waited |
| `Position.FitContainsIff` | core/misc/position.es6.js:80-178 | `fit` brings the element inside if and only if it is no larger than the container and is not pushed out from before the origin of the page |
| `Position.FitIsNearest` | core/misc/position.es6.js:80-178 | in a container that does not begin before the origin `fit` moves no further than any place inside, and a second `fit` changes nothing |
| `Position.FitPutsFlush` | core/misc/position.es6.js:116-127 | an element no larger than its container is put flush with the end it sticks out of, and one inside is moved at most to the origin of the page |
| `Position.FitOfTooLarge` | core/misc/position.es6.js:93-115 | a larger one is put flush with the end of the container nearer to where it begins |
| `Position.FitTwiceIff` | core/misc/position.es6.js:80-178 | exactly when a second `fit` changes nothing, for all sizes, margins and offsets |
| `Position.FitCanPushOut` | core/misc/position.es6.js:124-128 | a concrete container before the origin out of which `fit` takes an element |
| `Position.FlipMirrors` | core/misc/position.es6.js:191-207 | for all nine pairs of sides and any offsets a flip lands on the mirror image about the target's centre, and two flips lead back |
| `Position.AlignedSidesMeet` | core/misc/position.es6.js:493-547 | the chosen sides of element and target meet, but for the offsets |
| `Position.FlipTakenIff` | core/misc/position.es6.js:208-288 | an element is flipped exactly when it sticks out at one end and would then stick out less at the other, as the handler reckons it |
| `Position.FlipHidesMoreIff` | core/misc/position.es6.js:208-288 | exactly when the chosen side shows less of the element than the one it came from |
| `Position.FlipCanHideMore` | core/misc/position.es6.js:208-221 | a concrete element that is flipped out of sight |
| `Position.Coordinate.constructor` | core/misc/position.es6.js:493-547 | the alignment steps put the chosen side of the element at the chosen side of the target, with both offsets |
| `Position.Coordinate.Fit` | core/misc/position.es6.js:81-178 | the handler's branches, and the element inside exactly under the condition |
| `Position.Coordinate.Flip` | core/misc/position.es6.js:180-288 | an aligned element stays or goes to its exact mirror image |
| `Position.Coordinate.FlipFit` | core/misc/position.es6.js:289-298 | the element ends inside exactly when `fit` can contain it after the flip |

## Decisions

- The rows of a table are all draggable and visible, as in a table of menu links or
  taxonomy terms, with one `parent`/`match` field and one `sibling`/`order` field.
- `isValidSwap` stores its interval even when it says no
  (core/misc/tabledrag.es6.js:1409-1414); the model does the same.
- When the dropped row is first and its group is the whole table, the source looks for
  a sibling to copy from in the whole document and finds the row's own field; the model
  leaves the field as it is.
- The documentation of `stringReplace` promises that replaced text is not searched
  again; it does not say what overlapping keys do. The model follows the code, longest
  key first over the whole string.
- A name such as `toString` satisfies the `in` test on the alias table through
  inheritance (core/misc/states.es6.js:605), and the constructor then throws;
  `StateNames.NormalForm` has no result there. `Constraints.Proper` therefore asks that
  every state name of a tree normalises.
- Events of the network reach the listeners of one channel each; a selector that
  matches several elements is several slots.
- The documentation of `position` says that a flip takes whichever side shows more of
  the element (core/misc/position.es6.js:396-403); the code looks at one edge only
  (core/misc/position.es6.js:208-232), and the model follows the code.
- Time is counted in milliseconds. A debounce timer may fire late; announcement timers
  fire when due, since the 200 ms bound is about the delay the code asks for.

## Left out

- Position: reading options, dimensions and percentages from the page, the feedback passed to `using`, and floating-point rounding; the horizontal and vertical handlers are one model on one coordinate.
- Table drag: hidden and undraggable rows, pixel hit-testing in `findDropTargetRow` (the row under the mouse is an input), scrolling, striping, column toggling, CSS classes and `copyDragClasses`; weights chosen from a select list; the `self`, `group` and `depth` settings; detaching and attaching behaviours around a swap.
- TableDrag.RowObject.Swap: the group is kept as a place and a length in the table, not as a list of page elements; that it stays contiguous is part of the representation.
- States: the trigger functions that read the page, the document-level handlers that change it, regular-expression and function references, which JSON cannot hold, and `null` references, on which the source throws.
- Network.Net.Change: starts from a network at rest; the order in which dependents are first attached is not modelled.
- Callbacks: `remove`, `empty`, `has`, the `unique` and `stopOnFalse` flags, and callbacks that throw.
- Deferred: `pipe`, `then`, `always` and `promise`, which only rearrange the three lists.
- When.Join.Notify: a notification made from within a notification is a step of its own; that put-off ones share one array is not modelled.
- Tabbing: focus movement, the focus trap's key handlers and the events announced to other modules; which elements lie under the given ones is an input.
- Tabbing.Manager.Release: the context must have been handed out by this manager.
- Strings: `Drupal.t` lookup and plural forms; non-string arguments.
- Autocomplete: the suggestion cache and the requests behind it.
- Announce: creation of the live region and its busy flag.
- The rest of the repository: PHP bootstrapping, requests, other widgets and generated files.
