/**
 * The file system as the controller sees it, and the one-level listing that
 * `loadDirectory`, `loadAppBundleContents` and `loadChildItems` each perform.
 *
 * The three Foundation calls become three maps; a path missing from a map is a
 * call that throws for it:
 *  - `contents`: `contentsOfDirectory(at:)`, the names of a directory's entries;
 *  - `isDirectory`: `resourceValues(forKeys: [.isDirectoryKey])`, already folded
 *    with `?? false`;
 *  - `attributes`: `attributesOfItem(atPath:)`, its size and modification date.
 */
module FileSystems {
  import opened Wrappers
  import opened Paths

  /** A modification date, kept abstract as a timestamp. */
  type Date = int

  /** What `attributesOfItem` reports; either key may be missing. */
  datatype Attributes = Attributes(size: Option<int>, modificationDate: Option<Date>)

  datatype FileSystem = FileSystem(
    contents: map<Path, seq<Name>>,
    isDirectory: map<Path, bool>,
    attributes: map<Path, Attributes>)

  /**
   * What one listed item records: its path and name, what the listing decides
   * (`isDirectory`, `isAppBundle`), and the metadata `FileItem.init` reads.
   */
  datatype Entry = Entry(
    url: Path, name: Name, isDirectory: bool, isAppBundle: bool,
    size: int, modificationDate: Option<Date>)

  /** The size recorded for `url`: 0 when the attributes cannot be read or carry no size. */
  function SizeAttribute(fs: FileSystem, url: Path): (size: int) {
    if url in fs.attributes then fs.attributes[url].size.GetOr(0) else 0
  }

  /** The date recorded for `url`: none when the attributes cannot be read or carry no date. */
  function DateAttribute(fs: FileSystem, url: Path): (date: Option<Date>) {
    if url in fs.attributes then fs.attributes[url].modificationDate else None
  }

  /**
   * The items one listing produces, in order, and whether it ran to the end.
   * An incomplete listing stopped at a call that threw, keeping what it had
   * appended before.
   */
  datatype Listing = Listing(entries: seq<Entry>, complete: bool)

  /** The entry built for `p` once its directory probe has succeeded. */
  function EntryFor(fs: FileSystem, p: Path): (e: Entry)
    requires p in fs.isDirectory
  {
    Entry(p, LastPathComponent(p), fs.isDirectory[p], IsAppBundlePath(p), SizeAttribute(fs, p), DateAttribute(fs, p))
  }

  /** Whether the directory probe of every one of the first `k` names succeeds. */
  ghost predicate ProbesSucceed(fs: FileSystem, dir: Path, names: seq<Name>, k: nat)
    requires k <= |names|
  {
    forall j :: 0 <= j < k ==> dir + [names[j]] in fs.isDirectory
  }

  /**
   * How far the `for fileURL in sorted` loop over `names` gets: the position of
   * the first name whose directory probe throws, or `|names|` when none does.
   */
  function ProbedCount(fs: FileSystem, dir: Path, names: seq<Name>): (k: nat)
    ensures k <= |names|
    ensures ProbesSucceed(fs, dir, names, k)
    ensures k < |names| ==> dir + [names[k]] !in fs.isDirectory
    decreases |names|
  {
    if names == [] || dir + [names[0]] !in fs.isDirectory then 0
    else
      var k := ProbedCount(fs, dir, names[1..]);
      assert forall j :: 1 <= j < k + 1 ==> names[j] == names[1..][j - 1];
      k + 1
  }

  /** The probes stop at the first failure: `ProbedCount` is the only position with both properties. */
  lemma ProbedCountUnique(fs: FileSystem, dir: Path, names: seq<Name>, k: nat)
    requires k <= |names| && ProbesSucceed(fs, dir, names, k)
    requires k < |names| ==> dir + [names[k]] !in fs.isDirectory
    ensures ProbedCount(fs, dir, names) == k
  {
  }

  /** The entries built for the first `k` names, in order. */
  function EntriesUpTo(fs: FileSystem, dir: Path, names: seq<Name>, k: nat): (es: seq<Entry>)
    requires k <= |names| && ProbesSucceed(fs, dir, names, k)
    ensures |es| == k
  {
    seq(k, i requires 0 <= i < k => EntryFor(fs, dir + [names[i]]))
  }

  /** One more successful probe adds one entry at the end. */
  lemma EntriesUpToNext(fs: FileSystem, dir: Path, names: seq<Name>, k: nat)
    requires k < |names| && ProbesSucceed(fs, dir, names, k + 1)
    ensures EntriesUpTo(fs, dir, names, k + 1)
      == EntriesUpTo(fs, dir, names, k) + [EntryFor(fs, dir + [names[k]])]
  {
  }

  /**
   * The `for fileURL in sorted` loop over `names`, entries of `dir`: one entry
   * per name until the first name whose directory probe throws.
   */
  function Scan(fs: FileSystem, dir: Path, names: seq<Name>): (r: Listing)
  {
    var k := ProbedCount(fs, dir, names);
    Listing(EntriesUpTo(fs, dir, names, k), k == |names|)
  }

  /** One listing of `dir`: enumerate it, sort the names, then scan them. */
  function List(fs: FileSystem, dir: Path): (r: Listing)
  {
    if dir !in fs.contents then Listing([], false)
    else Scan(fs, dir, Sort(fs.contents[dir]))
  }

  /** The display names of a sequence of entries. */
  function Names(es: seq<Entry>): (r: seq<Name>)
    ensures |r| == |es|
  {
    seq(|es|, i requires 0 <= i < |es| => LastPathComponent(es[i].url))
  }

  /** A directory that cannot be enumerated lists nothing and reports the failure. */
  lemma UnreadableDirectoryListsNothing(fs: FileSystem, dir: Path)
    requires dir !in fs.contents
    ensures List(fs, dir) == Listing([], false)
  {
  }

  /**
   * Whatever happens, a listing holds entries for the first names of the
   * sorted directory listing, in that order.
   */
  lemma {:induction false} ListingIsSortedPrefix(fs: FileSystem, dir: Path)
    requires dir in fs.contents
    ensures |List(fs, dir).entries| <= |fs.contents[dir]|
    ensures Names(List(fs, dir).entries) == Sort(fs.contents[dir])[..|List(fs, dir).entries|]
  {
    var sorted := Sort(fs.contents[dir]);
    var r := Scan(fs, dir, sorted);
    assert List(fs, dir) == r;
    forall i | 0 <= i < |r.entries|
      ensures Names(r.entries)[i] == sorted[..|r.entries|][i]
    {
      assert r.entries[i].url == dir + [sorted[i]];
    }
  }

  /** A listing stops short exactly when the probe of some entry of the directory throws. */
  lemma {:induction false} ListingCompleteIffProbesSucceed(fs: FileSystem, dir: Path)
    requires dir in fs.contents
    ensures List(fs, dir).complete <==> forall n :: n in fs.contents[dir] ==> dir + [n] in fs.isDirectory
  {
    var sorted := Sort(fs.contents[dir]);
    var k := ProbedCount(fs, dir, sorted);
    assert List(fs, dir).complete == (k == |sorted|);
    if k < |sorted| {
      SortKeepsNames(fs.contents[dir], sorted[k]);
    } else {
      forall n | n in fs.contents[dir] ensures dir + [n] in fs.isDirectory {
        SortKeepsNames(fs.contents[dir], n);
      }
    }
  }

  /**
   * Every listed entry carries its own name and metadata: an entry whose
   * attributes cannot be read shows size 0 and no date, while the other
   * entries keep theirs.
   */
  lemma ListedEntriesCarryOwnMetadata(fs: FileSystem, dir: Path, i: int)
    requires 0 <= i < |List(fs, dir).entries|
    ensures dir in fs.contents && i < |fs.contents[dir]|
    ensures var e := List(fs, dir).entries[i];
      && e.url == dir + [Sort(fs.contents[dir])[i]]
      && e.url in fs.isDirectory && e.isDirectory == fs.isDirectory[e.url]
      && e.name == LastPathComponent(e.url) && e.isAppBundle == IsAppBundlePath(e.url)
      && (e.url !in fs.attributes ==> e.size == 0 && e.modificationDate == None)
      && (e.url in fs.attributes ==>
            e.size == fs.attributes[e.url].size.GetOr(0)
            && e.modificationDate == fs.attributes[e.url].modificationDate)
  {
    var sorted := Sort(fs.contents[dir]);
    assert List(fs, dir).entries[i] == EntryFor(fs, dir + [sorted[i]]);
  }

  /**
   * A complete listing has one item per directory entry, ascending by name:
   * its names are a sorted permutation of what the directory holds.
   */
  lemma {:induction false} CompleteListingIsSortedPermutation(fs: FileSystem, dir: Path)
    requires List(fs, dir).complete
    ensures dir in fs.contents
    ensures Sorted(Names(List(fs, dir).entries))
    ensures multiset(Names(List(fs, dir).entries)) == multiset(fs.contents[dir])
  {
    ListingIsSortedPrefix(fs, dir);
    var r := List(fs, dir);
    var sorted := Sort(fs.contents[dir]);
    assert sorted[..|r.entries|] == sorted;
  }
}
