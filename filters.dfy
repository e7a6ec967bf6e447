/**
 * The list filters the file list offers, and the split of the displayed page into folders and
 * files.
 */
module Filters {
  import opened Wrappers
  import opened Entries
  import opened Selection

  /**
   * `printed`: keeps the entries that have no successful print. An absent `prints` record or
   * success counter, or a counter that is not positive, all count as "no successful print".
   */
  predicate Printed(d: FileEntry)
  {
    !(d.prints.Some? && d.prints.value.success.Some? && d.prints.value.success.value > 0)
  }

  /** `sd`: the entry's origin is the SD card. */
  predicate Sd(d: FileEntry)
  {
    d.origin == Some(SdCardOrigin)
  }

  /** `local`: written as the negation of the `sd` test, so it also keeps entries without origin. */
  predicate Local(d: FileEntry)
  {
    !(d.origin.Some? && d.origin.value == SdCardOrigin)
  }

  /**
   * What the filters mean: `local` and `sd` split every entry; the two type filters, `machinecode`
   * (`IsMachineCode`) and `model` (`IsModel`), never overlap.
   */
  lemma FilterFacts(d: FileEntry)
    ensures Local(d) <==> !Sd(d)
    ensures Printed(d) <==> !exists n :: d.prints == Some(Prints(Some(n))) && n > 0
    ensures !(IsMachineCode(d) && IsModel(d))
  {
    if !Printed(d) {
      var n := d.prints.value.success.value;
      assert d.prints == Some(Prints(Some(n))) && n > 0;
    }
  }

  /** A type that is present and not empty: the JavaScript truthiness test on `type`. */
  predicate HasType(d: FileEntry)
  {
    d.kind.Some? && d.kind.value != ""
  }

  /** The `filesOnlyList` test: a present, non-empty type other than "folder". */
  predicate IsFile(d: FileEntry)
  {
    HasType(d) && d.kind.value != FolderType
  }

  /** `foldersOnlyList` over the paginated items. */
  function FoldersOnly(page: seq<FileEntry>): (r: seq<FileEntry>)
    ensures IsSubsequence(r, page)
    ensures forall e :: e in r ==> IsFolder(e)
    ensures forall e :: e in page && IsFolder(e) ==> e in r
  {
    if page == [] then []
    else if IsFolder(page[0]) then [page[0]] + FoldersOnly(page[1..])
    else FoldersOnly(page[1..])
  }

  /** `filesOnlyList` over the paginated items. */
  function FilesOnly(page: seq<FileEntry>): (r: seq<FileEntry>)
    ensures IsSubsequence(r, page)
    ensures forall e :: e in r ==> IsFile(e)
    ensures forall e :: e in page && IsFile(e) ==> e in r
  {
    if page == [] then []
    else if IsFile(page[0]) then [page[0]] + FilesOnly(page[1..])
    else FilesOnly(page[1..])
  }

  /**
   * The two lists split the typed entries of the page: every occurrence of an entry with a
   * non-empty type is in exactly one of them, and an entry without one is in neither.
   */
  lemma {:induction false} SplitPartitionsTypedEntries(page: seq<FileEntry>)
    ensures forall e :: multiset(FoldersOnly(page))[e] + multiset(FilesOnly(page))[e]
                        == (if HasType(e) then multiset(page)[e] else 0)
    ensures forall e :: !(e in FoldersOnly(page) && e in FilesOnly(page))
  {
    if page != [] {
      SplitPartitionsTypedEntries(page[1..]);
      assert page == [page[0]] + page[1..];
      assert multiset(page) == multiset{page[0]} + multiset(page[1..]);
    }
  }
}
