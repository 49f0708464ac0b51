/**
 * The window controller: navigation history, the root listing shown in the
 * outline, the lazy and eager loading of children, and the outline data source
 * and delegate rules.
 *
 * The side effects that carry no model content are recorded in an event log:
 * each `contentsOfDirectory` call (`ListDirectory`), each alert shown
 * (`Alert`), each message printed (`LogError`) and each file handed to the
 * workspace to open (`OpenFile`). The path label is the field `currentPath`.
 */
module Explorer {
  import opened Paths
  import opened FileSystems
  import opened FileItems
  import Navigation

  datatype Event = ListDirectory(path: Path) | Alert | LogError | OpenFile(path: Path)

  /** The log of one lazy or bundle listing of `url`: the enumeration, then a message if it failed. */
  function ExpandEvents(fs: FileSystem, url: Path): (log: seq<Event>) {
    [ListDirectory(url)] + (if List(fs, url).complete then [] else [LogError])
  }

  /** What building the root item `e` adds to the log: its bundle pre-load, if it is a bundle. */
  function BundleEvents(fs: FileSystem, e: Entry): (log: seq<Event>) {
    if e.isAppBundle then ExpandEvents(fs, e.url) else []
  }

  /** The bundle pre-loads of a sequence of root entries, in order. */
  function PreloadEvents(fs: FileSystem, es: seq<Entry>): (log: seq<Event>)
    decreases |es|
  {
    if es == [] then [] else PreloadEvents(fs, es[..|es| - 1]) + BundleEvents(fs, es[|es| - 1])
  }

  /**
   * The log of `loadDirectory(url)`: the enumeration, the pre-load of every
   * bundle built, and one alert if the listing stopped at a failure.
   */
  function LoadEvents(fs: FileSystem, url: Path): (log: seq<Event>) {
    [ListDirectory(url)] + PreloadEvents(fs, List(fs, url).entries)
      + (if List(fs, url).complete then [] else [Alert])
  }

  /** Regrouping a log: stated once so that the loops need not rediscover it. */
  lemma AppendAssoc(a: seq<Event>, b: seq<Event>, c: seq<Event>)
    ensures a + (b + c) == a + b + c
  {
  }

  /** The log of `loadDirectory` as it is written: one event or run of events after another. */
  lemma LoadEventsRegrouped(before: seq<Event>, fs: FileSystem, url: Path)
    ensures before + LoadEvents(fs, url)
      == if List(fs, url).complete then before + [ListDirectory(url)] + PreloadEvents(fs, List(fs, url).entries)
         else before + [ListDirectory(url)] + PreloadEvents(fs, List(fs, url).entries) + [Alert]
  {
  }

  /** Bundle pre-loads never raise an alert; they only print. */
  lemma {:induction false} PreloadRaisesNoAlert(fs: FileSystem, es: seq<Entry>)
    ensures Alert !in PreloadEvents(fs, es)
    decreases |es|
  {
    if es != [] {
      PreloadRaisesNoAlert(fs, es[..|es| - 1]);
    }
  }

  /** Loading a directory raises exactly one alert when its listing fails, and none otherwise. */
  lemma {:induction false} LoadAlertsOnceOnFailure(fs: FileSystem, url: Path)
    ensures multiset(LoadEvents(fs, url))[Alert] == if List(fs, url).complete then 0 else 1
  {
    PreloadRaisesNoAlert(fs, List(fs, url).entries);
    assert multiset(PreloadEvents(fs, List(fs, url).entries))[Alert] == 0;
  }

  /** A directory that cannot be enumerated: one enumeration attempt, then one alert, nothing shown. */
  lemma UnreadableDirectoryEvents(fs: FileSystem, url: Path)
    requires url !in fs.contents
    ensures LoadEvents(fs, url) == [ListDirectory(url), Alert]
    ensures List(fs, url).entries == []
  {
  }

  /** The pre-load log is one bundle at a time, front to back. */
  lemma {:induction false} PreloadEventsAppend(fs: FileSystem, es: seq<Entry>, e: Entry)
    ensures PreloadEvents(fs, es + [e]) == PreloadEvents(fs, es) + BundleEvents(fs, e)
  {
    assert (es + [e])[..|es|] == es;
  }

  // ---------------------------------------------------------------------------
  // Outline delegate rules

  /** `isItemExpandable`: directories and app bundles show a disclosure triangle. */
  predicate IsItemExpandable(item: FileItem) {
    item.isDirectory || item.isAppBundle
  }

  /** The column-to-cell mapping of `viewFor`: total, with the date cell for any other column. */
  function CellIdentifier(column: string): (cell: string)
    ensures cell == "NameCell" <==> column == "NameColumn"
    ensures cell == "SizeCell" <==> column == "SizeColumn"
    ensures cell == "DateCell" <==> column != "NameColumn" && column != "SizeColumn"
  {
    if column == "NameColumn" then "NameCell"
    else if column == "SizeColumn" then "SizeCell"
    else "DateCell"
  }

  // ---------------------------------------------------------------------------
  // The controller

  /** Every item was allocated since the previous state. */
  twostate predicate AllFresh(new items: seq<FileItem>) {
    forall j :: 0 <= j < |items| ==> fresh(items[j])
  }

  twostate lemma AllFreshAppend(new items: seq<FileItem>, new item: FileItem)
    requires AllFresh(items) && fresh(item)
    ensures AllFresh(items + [item])
  {
  }

  /**
   * A root item as `loadDirectory` leaves it: not loaded; an app bundle holds
   * the listing of its own path, whose items are not expanded further; any
   * other item has no children.
   */
  ghost predicate RootItemLoaded(fs: FileSystem, item: FileItem)
    reads item, item.children
  {
    && !item.childrenLoaded
    && Entries(item.children) == (if item.isAppBundle then List(fs, item.url).entries else [])
    && Unexpanded(item.children)
  }

  /** Every item of `items` is a root item as `loadDirectory` leaves it. */
  ghost predicate RootItemsLoaded(fs: FileSystem, items: seq<FileItem>)
    reads items, set j, k | 0 <= j < |items| && 0 <= k < |items[j].children| :: items[j].children[k]
  {
    forall j :: 0 <= j < |items| ==> RootItemLoaded(fs, items[j])
  }

  /**
   * The outline shows the listing of `url` in `items`: one root item per
   * listed entry, in order, each as `loadDirectory` leaves it.
   */
  ghost predicate Shows(fs: FileSystem, url: Path, items: seq<FileItem>)
    reads items, set j, k | 0 <= j < |items| && 0 <= k < |items[j].children| :: items[j].children[k]
  {
    && Entries(items) == List(fs, url).entries
    && RootItemsLoaded(fs, items)
  }

  lemma RootItemsLoadedAppend(fs: FileSystem, items: seq<FileItem>, item: FileItem)
    requires RootItemsLoaded(fs, items) && RootItemLoaded(fs, item)
    ensures RootItemsLoaded(fs, items + [item])
  {
  }

  /**
   * The listing loop `loadAppBundleContents` and `loadChildItems` share: one
   * item per entry of `url` in name order, up to the first entry whose
   * directory probe throws; `complete` says whether every call succeeded.
   */
  method ListItems(fs: FileSystem, url: Path) returns (items: seq<FileItem>, complete: bool)
    ensures Entries(items) == List(fs, url).entries && complete == List(fs, url).complete
    ensures Unexpanded(items)
    ensures AllFresh(items)
  {
    items := [];
    if url !in fs.contents {
      UnreadableDirectoryListsNothing(fs, url);
      return items, false;
    }
    var names := Sort(fs.contents[url]);
    var i := 0;
    while i < |names| && url + [names[i]] in fs.isDirectory
      invariant 0 <= i <= |names|
      invariant ProbesSucceed(fs, url, names, i)
      invariant Entries(items) == EntriesUpTo(fs, url, names, i)
      invariant Unexpanded(items)
      invariant AllFresh(items)
    {
      var fileURL := url + [names[i]];
      EntriesUpToNext(fs, url, names, i);
      var item := new FileItem(fileURL, fs.isDirectory[fileURL], IsAppBundlePath(fileURL), fs);
      EntriesAppend(items, item);
      AllFreshAppend(items, item);
      items := items + [item];
      i := i + 1;
    }
    ProbedCountUnique(fs, url, names, i);
    complete := i == |names|;
  }

  class FileExplorerWindowController {
    var rootItems: seq<FileItem>
    var navigationHistory: seq<Path>
    var navigationIndex: int
    var backEnabled: bool
    var forwardEnabled: bool
    var currentPath: Path
    var events: seq<Event>

    /** The navigation state as a value. */
    function Nav(): (n: Navigation.Nav)
      reads this
    {
      Navigation.Nav(navigationHistory, navigationIndex, backEnabled, forwardEnabled)
    }

    /** The navigation invariant, and the path label showing the current location. */
    ghost predicate Valid()
      reads this
    {
      Navigation.Valid(Nav())
      && (navigationHistory != [] ==> currentPath == navigationHistory[navigationIndex])
    }


    /**
     * `init(window:)`: both buttons start disabled at index -1 on an empty
     * history, then the controller navigates to the home directory.
     */
    constructor (home: Path, fs: FileSystem)
      ensures Valid() && Nav() == Navigation.Navigate(Navigation.Initial, home)
      ensures currentPath == home && Shows(fs, home, rootItems) && AllFresh(rootItems)
      ensures events == LoadEvents(fs, home)
    {
      rootItems := [];
      navigationHistory := [];
      navigationIndex := -1;
      backEnabled := false;
      forwardEnabled := false;
      currentPath := [];
      events := [];
      new;
      NavigateToDirectory(home, fs);
    }

    /**
     * `navigateToDirectory`: prune the forward branch, append `url`, make it
     * current, update the buttons and the path label, and load its listing.
     */
    method NavigateToDirectory(url: Path, fs: FileSystem)
      requires Valid()
      modifies this
      ensures Valid() && Nav() == Navigation.Navigate(old(Nav()), url)
      ensures currentPath == url && Shows(fs, url, rootItems) && AllFresh(rootItems)
      ensures events == old(events) + LoadEvents(fs, url)
    {
      if navigationIndex < |navigationHistory| - 1 {
        navigationHistory := navigationHistory[..navigationIndex + 1];
      }
      navigationHistory := navigationHistory + [url];
      navigationIndex := |navigationHistory| - 1;
      backEnabled := navigationIndex > 0;
      forwardEnabled := false;
      currentPath := url;
      LoadDirectory(url, fs);
    }

    /**
     * `loadDirectory`: clear the root items, enumerate `url`, and build one
     * item per entry in name order, pre-loading each app bundle. Any failure
     * raises one alert and keeps the items built so far.
     */
    method LoadDirectory(url: Path, fs: FileSystem)
      modifies this`rootItems, this`events
      ensures Shows(fs, url, rootItems) && AllFresh(rootItems)
      ensures events == old(events) + LoadEvents(fs, url)
    {
      rootItems := [];
      events := events + [ListDirectory(url)];
      if url !in fs.contents {
        UnreadableDirectoryListsNothing(fs, url);
        events := events + [Alert];
        return;
      }
      var complete := BuildRootItems(url, fs);
      if !complete {
        events := events + [Alert];
      }
      LoadEventsRegrouped(old(events), fs, url);
    }

    /**
     * The `for fileURL in sorted` loop of `loadDirectory` over the sorted
     * entries of `url`: one root item per name, in order, until the first
     * name whose directory probe throws; `complete` says whether none did.
     */
    method BuildRootItems(url: Path, fs: FileSystem) returns (complete: bool)
      requires url in fs.contents && rootItems == []
      modifies this`rootItems, this`events
      ensures Shows(fs, url, rootItems) && AllFresh(rootItems) && complete == List(fs, url).complete
      ensures events == old(events) + PreloadEvents(fs, List(fs, url).entries)
    {
      var names := Sort(fs.contents[url]);
      var i := 0;
      while i < |names| && url + [names[i]] in fs.isDirectory
        invariant 0 <= i <= |names|
        invariant ProbesSucceed(fs, url, names, i)
        invariant Entries(rootItems) == EntriesUpTo(fs, url, names, i)
        invariant RootItemsLoaded(fs, rootItems) && AllFresh(rootItems)
        invariant events == old(events) + PreloadEvents(fs, EntriesUpTo(fs, url, names, i))
      {
        var fileURL := url + [names[i]];
        EntriesUpToNext(fs, url, names, i);
        PreloadEventsAppend(fs, EntriesUpTo(fs, url, names, i), EntryFor(fs, fileURL));
        AppendAssoc(old(events), PreloadEvents(fs, EntriesUpTo(fs, url, names, i)),
          BundleEvents(fs, EntryFor(fs, fileURL)));
        ghost var before := rootItems;
        var item := AddRootItem(fileURL, fs);
        AllFreshAppend(before, item);
        i := i + 1;
      }
      ProbedCountUnique(fs, url, names, i);
      assert List(fs, url) == Listing(EntriesUpTo(fs, url, names, i), i == |names|);
      complete := i == |names|;
    }

    /**
     * One turn of the `loadDirectory` loop once the probe of `fileURL` has
     * succeeded: the root items gain the entry of `fileURL` at the end, and
     * the items already there stay as `loadDirectory` left them, since only
     * the new item and its fresh children are written.
     */
    method AddRootItem(fileURL: Path, fs: FileSystem) returns (item: FileItem)
      requires fileURL in fs.isDirectory && RootItemsLoaded(fs, rootItems)
      modifies this`rootItems, this`events
      ensures rootItems == old(rootItems) + [item] && fresh(item)
      ensures RootItemsLoaded(fs, rootItems)
      ensures Entries(rootItems) == Entries(old(rootItems)) + [EntryFor(fs, fileURL)]
      ensures events == old(events) + BundleEvents(fs, EntryFor(fs, fileURL))
    {
      ghost var before := rootItems;
      item := AppendRootItem(fileURL, fs);
      assert RootItemsLoaded(fs, before);
      RootItemsLoadedAppend(fs, before, item);
    }

    /**
     * The body of that turn: build the item of `fileURL`, append it to the
     * root items and, for an app bundle, pre-load its contents.
     */
    method AppendRootItem(fileURL: Path, fs: FileSystem) returns (fileItem: FileItem)
      requires fileURL in fs.isDirectory
      modifies this`rootItems, this`events
      ensures rootItems == old(rootItems) + [fileItem] && fresh(fileItem)
      ensures RootItemLoaded(fs, fileItem) && AllFresh(fileItem.children)
      ensures Entries(rootItems) == Entries(old(rootItems)) + [EntryFor(fs, fileURL)]
      ensures events == old(events) + BundleEvents(fs, EntryFor(fs, fileURL))
    {
      fileItem := new FileItem(fileURL, fs.isDirectory[fileURL], IsAppBundlePath(fileURL), fs);
      EntriesAppend(rootItems, fileItem);
      rootItems := rootItems + [fileItem];
      if fileItem.isAppBundle {
        LoadAppBundleContents(fileItem, fs);
        assert fileItem.children[0..] == fileItem.children;
      } else {
        assert events == old(events) + [];
      }
    }

    /**
     * `loadAppBundleContents`: append to the bundle's children one item per
     * entry of its listing, in name order; a failure prints a message and keeps
     * what was appended. `childrenLoaded` is not touched.
     */
    method LoadAppBundleContents(appItem: FileItem, fs: FileSystem)
      modifies this`events, appItem`children
      ensures |appItem.children| >= |old(appItem.children)|
      ensures appItem.children[..|old(appItem.children)|] == old(appItem.children)
      ensures Entries(appItem.children[|old(appItem.children)|..]) == List(fs, appItem.url).entries
      ensures Unexpanded(appItem.children[|old(appItem.children)|..])
      ensures AllFresh(appItem.children[|old(appItem.children)|..])
      ensures events == old(events) + ExpandEvents(fs, appItem.url)
    {
      var url := appItem.url;
      events := events + [ListDirectory(url)];
      var items, complete := ListItems(fs, url);
      assert forall j :: 0 <= j < |items| ==> items[j] != appItem;
      ghost var before := appItem.children;
      appItem.children := appItem.children + items;
      assert appItem.children[|before|..] == items && appItem.children[..|before|] == before;
      if !complete {
        events := events + [LogError];
      }
    }

    /**
     * `loadChildItems`: clear the item's children, then fill them with one item
     * per entry of its listing, in name order, and mark them loaded. A failure
     * prints a message, keeps what was appended and leaves `childrenLoaded` as it was.
     */
    method LoadChildItems(fileItem: FileItem, fs: FileSystem)
      modifies this`events, fileItem`children, fileItem`childrenLoaded
      ensures Entries(fileItem.children) == List(fs, fileItem.url).entries
      ensures Unexpanded(fileItem.children)
      ensures AllFresh(fileItem.children)
      ensures fileItem.childrenLoaded
        == if List(fs, fileItem.url).complete then true else old(fileItem.childrenLoaded)
      ensures events == old(events) + ExpandEvents(fs, fileItem.url)
    {
      fileItem.children := [];
      var url := fileItem.url;
      events := events + [ListDirectory(url)];
      var items, complete := ListItems(fs, url);
      fileItem.children := items;
      if complete {
        fileItem.childrenLoaded := true;
      } else {
        events := events + [LogError];
      }
    }

    /** `goBack`: one step back through the history and reload; nothing at index 0. */
    method GoBack(fs: FileSystem)
      requires Valid()
      modifies this
      ensures Valid() && Nav() == Navigation.Back(old(Nav()))
      ensures old(navigationIndex) > 0 ==>
        Shows(fs, currentPath, rootItems) && AllFresh(rootItems)
        && events == old(events) + LoadEvents(fs, currentPath)
      ensures old(navigationIndex) <= 0 ==> unchanged(this)
    {
      if navigationIndex > 0 {
        navigationIndex := navigationIndex - 1;
        backEnabled := navigationIndex > 0;
        forwardEnabled := true;
        currentPath := navigationHistory[navigationIndex];
        LoadDirectory(navigationHistory[navigationIndex], fs);
      }
    }

    /** `goForward`: one step forward through the history and reload; nothing at the last index. */
    method GoForward(fs: FileSystem)
      requires Valid()
      modifies this
      ensures Valid() && Nav() == Navigation.Forward(old(Nav()))
      ensures old(navigationIndex) < |old(navigationHistory)| - 1 ==>
        Shows(fs, currentPath, rootItems) && AllFresh(rootItems)
        && events == old(events) + LoadEvents(fs, currentPath)
      ensures old(navigationIndex) == |old(navigationHistory)| - 1 ==> unchanged(this)
    {
      if navigationIndex < |navigationHistory| - 1 {
        navigationIndex := navigationIndex + 1;
        backEnabled := navigationIndex > 0;
        forwardEnabled := navigationIndex < |navigationHistory| - 1;
        currentPath := navigationHistory[navigationIndex];
        LoadDirectory(navigationHistory[navigationIndex], fs);
      }
    }

    /** `goUp`: navigate to the parent of the current location, unless it is the location itself. */
    method GoUp(fs: FileSystem)
      requires Valid() && navigationHistory != []
      modifies this
      ensures Valid() && Nav() == Navigation.Up(old(Nav()))
      ensures var current := old(navigationHistory[navigationIndex]);
        Parent(current) != current ==>
          currentPath == Parent(current) && Shows(fs, currentPath, rootItems) && AllFresh(rootItems)
          && events == old(events) + LoadEvents(fs, currentPath)
      ensures old(navigationHistory[navigationIndex]) == Root ==> unchanged(this)
    {
      var currentURL := navigationHistory[navigationIndex];
      var parentURL := Parent(currentURL);
      if parentURL != currentURL {
        NavigateToDirectory(parentURL, fs);
      }
    }

    /**
     * `handleDoubleClick`: a directory or app bundle is navigated to; any other
     * item is handed to the workspace to open. No clicked item, nothing happens.
     */
    method HandleDoubleClick(item: FileItem?, fs: FileSystem)
      requires Valid()
      modifies this
      ensures Valid()
      ensures item == null ==> unchanged(this)
      ensures item != null && IsItemExpandable(item) ==>
        Nav() == Navigation.Navigate(old(Nav()), item.url) && Shows(fs, item.url, rootItems) && AllFresh(rootItems)
        && events == old(events) + LoadEvents(fs, item.url)
      ensures item != null && !IsItemExpandable(item) ==>
        Nav() == old(Nav()) && currentPath == old(currentPath) && rootItems == old(rootItems)
        && events == old(events) + [OpenFile(item.url)]
    {
      if item != null {
        if item.isDirectory || item.isAppBundle {
          NavigateToDirectory(item.url, fs);
        } else {
          events := events + [OpenFile(item.url)];
        }
      }
    }

    /**
     * `numberOfChildrenOfItem`: the number of root items for the outline's
     * root; for an item, its children, listed first if it is a directory whose
     * children are not loaded yet.
     */
    method NumberOfChildren(item: FileItem?, fs: FileSystem) returns (count: int)
      modifies this`events, item
      ensures item == null ==> count == |rootItems| && events == old(events)
      ensures item != null ==> count == |item.children|
      ensures item != null && (!item.isDirectory || old(item.childrenLoaded)) ==>
        unchanged(item) && events == old(events)
      ensures item != null && item.isDirectory && !old(item.childrenLoaded) ==>
        && Entries(item.children) == List(fs, item.url).entries
        && Unexpanded(item.children)
        && AllFresh(item.children)
        && item.childrenLoaded == List(fs, item.url).complete
        && events == old(events) + ExpandEvents(fs, item.url)
    {
      if item == null {
        return |rootItems|;
      }
      if item.isDirectory && !item.childrenLoaded {
        LoadChildItems(item, fs);
      }
      count := |item.children|;
    }

    /** `child:ofItem:`: the root item, or the item's child, at `index`. */
    function Child(index: int, item: FileItem?): (r: FileItem)
      reads this, item
      requires item == null ==> 0 <= index < |rootItems|
      requires item != null ==> 0 <= index < |item.children|
      ensures item == null ==> r == rootItems[index]
      ensures item != null ==> r == item.children[index]
    {
      if item == null then rootItems[index] else item.children[index]
    }

    /**
     * The outline asking twice for the children of one item: once a listing
     * has succeeded, the second question lists nothing and gets the same answer.
     */
    method NumberOfChildrenTwice(item: FileItem, fs: FileSystem) returns (first: int, second: int)
      modifies this`events, item
      ensures second == first == |item.children|
      ensures item.isDirectory && !old(item.childrenLoaded) && List(fs, item.url).complete ==>
        events == old(events) + [ListDirectory(item.url)]
      ensures !item.isDirectory || old(item.childrenLoaded) ==> events == old(events)
    {
      first := NumberOfChildren(item, fs);
      second := NumberOfChildren(item, fs);
    }
  }
}
