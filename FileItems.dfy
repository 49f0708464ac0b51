/**
 * One row of the outline: a file-system entry captured when a listing built
 * it. Everything but its children is fixed at construction (`const` here, `let`
 * in the source); `children` and `childrenLoaded` are updated in place by the
 * controller's listings.
 */
module FileItems {
  import opened Wrappers
  import opened Paths
  import opened FileSystems

  /**
   * What the size and date columns show. `Dashes` is the literal text "--";
   * the other two stand for the text `ByteCountFormatter` and `DateFormatter`
   * would produce, which is not modelled.
   */
  datatype CellText = Dashes | FormattedSize(bytes: int) | FormattedDate(date: Date)

  class FileItem {
    const url: Path
    const name: Name
    const isDirectory: bool
    const isAppBundle: bool
    const size: int
    const modificationDate: Option<Date>

    var children: seq<FileItem>
    var childrenLoaded: bool

    /**
     * `init(url:isDirectory:isAppBundle:)`: reads the entry's attributes from
     * `fs` and starts with no children, not yet loaded.
     */
    constructor (url: Path, isDirectory: bool, isAppBundle: bool, fs: FileSystem)
      ensures this.url == url && this.isDirectory == isDirectory && this.isAppBundle == isAppBundle
      ensures name == LastPathComponent(url)
      ensures url !in fs.attributes ==> size == 0 && modificationDate == None
      ensures url in fs.attributes && fs.attributes[url].size == None ==> size == 0
      ensures url in fs.attributes ==> modificationDate == fs.attributes[url].modificationDate
      ensures size == SizeAttribute(fs, url) && modificationDate == DateAttribute(fs, url)
      ensures children == [] && !childrenLoaded
    {
      this.url := url;
      this.name := LastPathComponent(url);
      this.isDirectory := isDirectory;
      this.isAppBundle := isAppBundle;
      this.size := SizeAttribute(fs, url);
      this.modificationDate := DateAttribute(fs, url);
      this.children := [];
      this.childrenLoaded := false;
    }

    /** The listing entry this item was built from. */
    function Info(): (e: Entry) {
      Entry(url, name, isDirectory, isAppBundle, size, modificationDate)
    }

    /** `sizeString`: dashes for every directory, whatever its size; the formatted size otherwise. */
    function SizeString(): (r: CellText)
      ensures r == Dashes <==> isDirectory
      ensures r != Dashes ==> r == FormattedSize(size)
    {
      if isDirectory then Dashes else FormattedSize(size)
    }

    /** `dateString`: dashes exactly when there is no modification date. */
    function DateString(): (r: CellText)
      ensures r == Dashes <==> modificationDate == None
      ensures modificationDate != None ==> r == FormattedDate(modificationDate.value)
    {
      match modificationDate
      case None => Dashes
      case Some(d) => FormattedDate(d)
    }
  }

  /** The entries a sequence of items was built from, in order. */
  function Entries(items: seq<FileItem>): (r: seq<Entry>)
    ensures |r| == |items|
    ensures forall i :: 0 <= i < |items| ==> r[i] == items[i].Info()
  {
    seq(|items|, i requires 0 <= i < |items| => items[i].Info())
  }

  lemma EntriesAppend(items: seq<FileItem>, item: FileItem)
    ensures Entries(items + [item]) == Entries(items) + [item.Info()]
  {
  }

  /** Items that have not been expanded: no children and not loaded. */
  ghost predicate Unexpanded(items: seq<FileItem>)
    reads items
  {
    forall i :: 0 <= i < |items| ==> items[i].children == [] && !items[i].childrenLoaded
  }
}
