# AppKit file explorer: navigation history and lazy directory tree

This project is a Dafny model of the core of a small macOS file browser. The
browser's window controller keeps:

- a back/forward/up navigation history, and the enabled state of the back and
  forward buttons;
- the root listing of the current directory, shown in an outline view;
- the children of each `FileItem`, loaded in one of two ways: eagerly, one
  level deep, for the application bundles (names ending in `.app`) of the
  root listing; and lazily, on the outline's first child-count query, for
  every directory, bundles included, whose pre-loaded children that listing
  replaces.

Modules:

- `Paths`:
  - a file URL as the list of its path components;
  - `lastPathComponent`, the parent (`deletingLastPathComponent`) and
    `pathExtension`;
  - the name order every listing is sorted by.
- `FileSystems`:
  - the file system as three maps, one per Foundation call: the controller
    makes `contentsOfDirectory` and reads the `isDirectory` resource value,
    and `FileItem.init` calls `attributesOfItem`; a path missing from a map
    is a call that throws;
  - `List`, the one-level listing that all three loaders perform: enumerate,
    sort by name, then build one entry per name until the first directory
    probe that throws.
- `FileItems`: the `FileItem` class.
  - Its `let` fields become `const` fields, with the defaults `init` applies
    when the attributes cannot be read.
  - `children` and `childrenLoaded` are mutable fields.
  - It also holds the two "--" display rules.
- `Navigation`: the history as a value, `Nav`.
  - `Navigate`, `Back`, `Forward` and `Up` are pure functions on it.
  - `Valid` is the invariant: the index is within bounds, back is enabled
    exactly when an earlier entry exists, and forward exactly when a later
    one exists.
  - Laws about these functions, and about runs of actions.
- `Explorer`: the window controller as a class.
  - Its methods change its fields and the items' fields in place, and are
    proved against the functions above:
    - each navigation method moves `Nav()` exactly as the matching
      `Navigation` function does;
    - `loadDirectory` and `loadChildItems` leave the items equal to `List`
      of the listed path, as new objects; `loadAppBundleContents` appends
      that listing after the children already there.
  - It also holds the outline data source (`numberOfChildrenOfItem`,
    `child:ofItem:`, `isItemExpandable`) and the column-to-cell mapping of
    `viewFor`.

Side effects with no model content are recorded in the controller's `events`
log:

- each `contentsOfDirectory` call;
- each alert shown;
- each message printed;
- each file handed to `NSWorkspace` to open.

The path label is the field `currentPath`.

Four behaviours of the code that the model keeps exactly:

- **The pruning example.** After going back from the end of `[A, B, C]` and
  then to `D`, the history is `[A, B, D]` at index 2, the new entry
  (`Navigation.BackThenNavigateDiscardsForward`).
- **A failed lazy listing.** A failed lazy listing leaves `childrenLoaded`
  false, so the next query lists again (`LoadChildItems`).
- **A failed probe part-way through.** A directory probe that throws part-way
  keeps the items built before it:
  - `loadDirectory` then shows an alert;
  - the two child loaders print a message.

  `List` models this partial result explicitly.
- **A pre-loaded bundle is listed again.** Only the bundles of the root listing
  are pre-loaded; a bundle met by a child loader is not. A pre-loaded bundle
  that is a directory is still not marked loaded, so its first child-count
  query lists it again and replaces the pre-loaded children
  (`NumberOfChildren`).

## Model

| member | source | states |
|---|---|---|
| Paths.LastPathComponent | FileExplorer/FileExplorer/FileItem.swift:44 | an item's name is the last component of its path, and "/" for the root |
| Paths.Parent | FileExplorer/FileExplorer/FileExplorerWindowController.swift:288 | the parent drops exactly the last component, and equals the path itself exactly at the root |
| Paths.Extension | FileExplorer/FileExplorer/FileExplorerWindowController.swift:199 | the extension holds no dot and, when non-empty, is the suffix that follows a dot standing after the first position |
| Paths.ExtensionAfterLastDot | FileExplorer/FileExplorer/FileExplorerWindowController.swift:199 | the text after the last dot, when that dot is not the first character, is the extension |
| Paths.AppSuffixIsBundle | FileExplorer/FileExplorer/FileExplorerWindowController.swift:199 | every name `<stem>.app` with a non-empty stem is classed as an app bundle |
| Paths.NameLessEqReflexive | FileExplorer/FileExplorer/FileExplorerWindowController.swift:197 | the name order is reflexive |
| Paths.NameLessEqTotal | FileExplorer/FileExplorer/FileExplorerWindowController.swift:197 | any two names are comparable |
| Paths.NameLessEqTransitive | FileExplorer/FileExplorer/FileExplorerWindowController.swift:197 | the name order is transitive |
| Paths.NameLessEqAntisymmetric | FileExplorer/FileExplorer/FileExplorerWindowController.swift:197 | names ordered both ways are equal, so the sort order is unique |
| Paths.Insert | FileExplorer/FileExplorer/FileExplorerWindowController.swift:197 | inserting into a sorted list keeps it sorted and adds exactly that name |
| Paths.Sort | FileExplorer/FileExplorer/FileExplorerWindowController.swift:197 | the sorted listing is ascending by name and a permutation of the entries |
| Paths.SortKeepsNames | FileExplorer/FileExplorer/FileExplorerWindowController.swift:197 | a name is in the sorted listing exactly when it is among the entries |
| Paths.SortUnique | FileExplorer/FileExplorer/FileExplorerWindowController.swift:197 | any ascending permutation of the entries is the sorted listing |
| Paths.SortedPermutationsEqual | FileExplorer/FileExplorer/FileExplorerWindowController.swift:197 | two ascending arrangements of the same names are identical |
| Paths.SortExample | FileExplorer/FileExplorer/FileExplorerWindowController.swift:197 | "b.txt", "A.txt", "c" are listed as "A.txt", "b.txt", "c" |
| FileSystems.ProbedCount | FileExplorer/FileExplorer/FileExplorerWindowController.swift:197-198 | the loop builds items for a prefix of the names whose probes all succeed, and stops at the first probe that throws |
| FileSystems.ProbedCountUnique | FileExplorer/FileExplorer/FileExplorerWindowController.swift:197-198 | that stopping point is the only position with those two properties |
| FileSystems.UnreadableDirectoryListsNothing | FileExplorer/FileExplorer/FileExplorerWindowController.swift:189-194 | a directory that cannot be enumerated yields no items and a failed listing |
| FileSystems.ListingIsSortedPrefix | FileExplorer/FileExplorer/FileExplorerWindowController.swift:194-209 | whatever fails, the items are built for the first names of the sorted listing, in that order |
| FileSystems.ListingCompleteIffProbesSucceed | FileExplorer/FileExplorer/FileExplorerWindowController.swift:194-198 | a listing completes if and only if the directory probe of every entry succeeds |
| FileSystems.CompleteListingIsSortedPermutation | FileExplorer/FileExplorer/FileExplorerWindowController.swift:194-209 | a complete listing has one item per directory entry, ascending by name |
| FileSystems.ListedEntriesCarryOwnMetadata | FileExplorer/FileExplorer/FileItem.swift:42-57 | every listed entry's path is the listed directory plus its name in sorted order, and the entry carries that path's name, directory flag and bundle class, and the size and date of its attributes, or size 0 and no date when they cannot be read |
| FileItems.FileItem.constructor | FileExplorer/FileExplorer/FileItem.swift:42-60 | name is the last path component; size 0 and no date when the attributes cannot be read; size 0 when it is missing; no children, not loaded |
| FileItems.FileItem.SizeString | FileExplorer/FileExplorer/FileItem.swift:22-31 | "--" exactly for directories, whatever their size; the formatted size otherwise |
| FileItems.FileItem.DateString | FileExplorer/FileExplorer/FileItem.swift:33-40 | "--" exactly when there is no modification date; the formatted date otherwise |
| Navigation.Navigate | FileExplorer/FileExplorer/FileExplorerWindowController.swift:170-180 | keeps the history up to the current entry, drops the rest, appends the target and shows it; back on when something precedes it, forward off |
| Navigation.Back | FileExplorer/FileExplorer/FileExplorerWindowController.swift:264-273 | keeps the history and the invariant; moves the index back by one, and does nothing at index 0 |
| Navigation.Forward | FileExplorer/FileExplorer/FileExplorerWindowController.swift:275-284 | keeps the history and the invariant; moves the index forward by one, and does nothing at the last index |
| Navigation.Up | FileExplorer/FileExplorer/FileExplorerWindowController.swift:286-292 | behaves exactly as a navigation to the parent, unless the parent is the current path, when nothing changes |
| Navigation.PruningExample | FileExplorer/FileExplorer/FileExplorerWindowController.swift:172-176 | from [A, B, C] at index 1, going to D gives [A, B, D] at index 2 |
| Navigation.BackThenNavigateDiscardsForward | FileExplorer/FileExplorer/FileExplorerWindowController.swift:172-176 | from [A, B, C] at index 2, going back and then to D gives [A, B, D] at index 2 |
| Navigation.ForwardUndoesBack | FileExplorer/FileExplorer/FileExplorerWindowController.swift:264-284 | going forward after going back restores the state, buttons included |
| Navigation.BackUndoesForward | FileExplorer/FileExplorer/FileExplorerWindowController.swift:264-284 | going back after going forward restores the state, buttons included |
| Navigation.UpIsNoOpExactlyAtRoot | FileExplorer/FileExplorer/FileExplorerWindowController.swift:286-292 | going up changes nothing if and only if the current location is the root |
| Navigation.UpAfterNavigate | FileExplorer/FileExplorer/FileExplorerWindowController.swift:286-292 | going up from `dir/x` appends and shows `dir`, with back on and forward off |
| Navigation.Run | FileExplorer/FileExplorer/FileExplorerWindowController.swift:170-292 | any run of the four actions from a started state keeps the invariant |
| Navigation.ReachableStatesAreValid | FileExplorer/FileExplorer/FileExplorerWindowController.swift:41 | after the initial navigation and any run of actions, the index is within the history and both buttons match it |
| Navigation.BackForwardKeepHistory | FileExplorer/FileExplorer/FileExplorerWindowController.swift:264-284 | a run of back and forward actions never changes the history |
| Navigation.NavigationsAppendInOrder | FileExplorer/FileExplorer/FileExplorerWindowController.swift:172-176 | successive navigations keep the history up to the current entry and then list the targets in order, the last one current |
| Explorer.CellIdentifier | FileExplorer/FileExplorer/FileExplorerWindowController+Extensions.swift:58-64 | NameColumn maps to NameCell, SizeColumn to SizeCell, and every other column, and only those, to DateCell |
| Explorer.PreloadRaisesNoAlert | FileExplorer/FileExplorer/FileExplorerWindowController.swift:235-237 | a failing bundle pre-load only prints and never raises an alert |
| Explorer.LoadAlertsOnceOnFailure | FileExplorer/FileExplorer/FileExplorerWindowController.swift:213-219 | loading a directory raises exactly one alert when its listing fails and none when it completes |
| Explorer.UnreadableDirectoryEvents | FileExplorer/FileExplorer/FileExplorerWindowController.swift:189-219 | an unreadable directory causes one enumeration attempt and one alert, and shows nothing |
| Explorer.ListItems | FileExplorer/FileExplorer/FileExplorerWindowController.swift:226-234 | the child-listing loop yields new, unexpanded items equal to the listing of the path, and reports whether it completed |
| Explorer.FileExplorerWindowController.constructor | FileExplorer/FileExplorer/FileExplorerWindowController.swift:22-42 | starts at index -1 on an empty history with both buttons off, then shows the home directory as after one navigation, with new root items |
| Explorer.FileExplorerWindowController.NavigateToDirectory | FileExplorer/FileExplorer/FileExplorerWindowController.swift:170-185 | moves the history as `Navigation.Navigate` does, keeps the invariant, sets the path label and shows the listing of the target as new root items |
| Explorer.FileExplorerWindowController.LoadDirectory | FileExplorer/FileExplorer/FileExplorerWindowController.swift:187-220 | the root items are the listing of the path, all of them new objects; each bundle holds its own listing, whose items are not expanded, and is not marked loaded; the log holds the enumeration, the bundle pre-loads and one alert on failure |
| Explorer.FileExplorerWindowController.BuildRootItems | FileExplorer/FileExplorer/FileExplorerWindowController.swift:197-209 | the item loop of `loadDirectory` builds exactly the listing out of new items, pre-loads every bundle, and says whether it completed |
| Explorer.FileExplorerWindowController.AddRootItem | FileExplorer/FileExplorer/FileExplorerWindowController.swift:202-208 | the root items gain one new item for the probed entry at the end, and every root item, old and new, stays as `loadDirectory` leaves it |
| Explorer.FileExplorerWindowController.AppendRootItem | FileExplorer/FileExplorer/FileExplorerWindowController.swift:202-208 | appends one new item for the probed entry after the others and pre-loads it if it is a bundle, leaving it unloaded with new, unexpanded children |
| Explorer.FileExplorerWindowController.LoadAppBundleContents | FileExplorer/FileExplorer/FileExplorerWindowController.swift:222-238 | appends the bundle's listing after its existing children as new, unexpanded items; leaves `childrenLoaded` alone; prints once on failure |
| Explorer.FileExplorerWindowController.LoadChildItems | FileExplorer/FileExplorer/FileExplorerWindowController.swift:241-261 | replaces the children with the listing, without duplicating them; sets `childrenLoaded` only when the listing completes; prints once on failure |
| Explorer.FileExplorerWindowController.GoBack | FileExplorer/FileExplorer/FileExplorerWindowController.swift:264-273 | moves the history as `Navigation.Back` does and shows the listing there as new root items; changes nothing at index 0 |
| Explorer.FileExplorerWindowController.GoForward | FileExplorer/FileExplorer/FileExplorerWindowController.swift:275-284 | moves the history as `Navigation.Forward` does and shows the listing there as new root items; changes nothing at the last index |
| Explorer.FileExplorerWindowController.GoUp | FileExplorer/FileExplorer/FileExplorerWindowController.swift:286-292 | moves the history as `Navigation.Up` does and shows the parent's listing as new root items; changes nothing at the root |
| Explorer.FileExplorerWindowController.HandleDoubleClick | FileExplorer/FileExplorer/FileExplorerWindowController.swift:294-304 | an expandable item (directory or bundle) is navigated to; any other item is opened and the history, the path label and the items are kept; no item, no change |
| Explorer.FileExplorerWindowController.NumberOfChildren | FileExplorer/FileExplorer/FileExplorerWindowController+Extensions.swift:14-28 | the root's count is the number of root items, with no listing; a directory not yet loaded is listed once and its children replaced by the listing, as new items; any other item is left as it is, with no listing |
| Explorer.FileExplorerWindowController.Child | FileExplorer/FileExplorer/FileExplorerWindowController+Extensions.swift:30-40 | the root item, or the item's child, at an index within bounds |
| Explorer.FileExplorerWindowController.NumberOfChildrenTwice | FileExplorer/FileExplorer/FileExplorerWindowController+Extensions.swift:21-24 | once a listing has succeeded, a second count query lists nothing and returns the same count |

## Left out

- Window, views, buttons, layout, icons, `reloadData`, and the text and images
  that `viewFor` puts in a cell: these are AppKit rendering with no model
  state. Of `viewFor`, only the column-to-cell mapping is modelled.
- The real `FileManager` and `URL` calls: they become the three maps of a
  `FileSystem` value, passed as a parameter. The home directory is a
  constructor parameter.
- The output of `ByteCountFormatter` and `DateFormatter`: the formatted text
  is an abstract `CellText` value, and a date is an integer timestamp. The
  64-bit size is an unbounded integer, because the core does no arithmetic
  on it.
- Swift's Unicode string comparison: names are ordered by character code.
- URL standardization: paths are taken to be standardized already.
- The `as? FileItem` casts: an outline item is a `FileItem?`, and `null`
  stands for the outline's root. The branches for an item of another type
  (count 0, `NSNull`, not expandable) cannot arise in the model. A
  double-click on no row is also `null`.
- `isItemExpandable` has no contract of its own. It is the predicate that
  `HandleDoubleClick`'s contract branches on.
- Explorer.FileExplorerWindowController.GoUp: requires a non-empty history.
  The source would trap on an empty one, which cannot happen once the
  constructor has run.
- Explorer.ListItems: the source appends each child to `item.children` as it
  is built. The model builds the same items in a local sequence and assigns
  them once. Nothing can observe the children between the two, since the
  code is sequential.
- `AppDelegate.swift`: application life-cycle glue, with no model content.
