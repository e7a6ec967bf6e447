/**
 * The file browser's view-model: the selection, the clipboard, the current folder and the list
 * handed to the list helper, with the guards that enable each action and the actions themselves.
 * Every call into the host's file API is appended to `requests`.
 */
module FileManager {
  import opened Wrappers
  import opened Entries
  import opened Api
  import opened Selection
  import opened Dispatch

  /** The loop of `checkSelectedOrigin`: false at the first entry without that origin. */
  function AllOfOrigin(s: seq<FileEntry>, origin: string): (r: bool)
    ensures r <==> forall i :: 0 <= i < |s| ==> s[i].origin == Some(origin)
  {
    s == [] || (s[0].origin == Some(origin) && AllOfOrigin(s[1..], origin))
  }

  /** The loop of `enableRemove`: false at the first entry the listing will not let go. */
  function AllRemovable(host: Host, s: seq<FileEntry>): (r: bool)
    ensures r <==> forall i :: 0 <= i < |s| ==> host.enableRemove(s[i])
  {
    s == [] || (host.enableRemove(s[0]) && AllRemovable(host, s[1..]))
  }

  /** The per-entry test `enableDownload` evaluates: a file (not a folder) stored locally. */
  predicate Downloadable(e: FileEntry)
  {
    e.kind.Some? && e.origin.Some? && e.kind.value != FolderType && e.origin.value == LocalOrigin
  }

  /** The per-entry loop of `enableDownload` as it evidently means to work: false at the first entry that fails the test. */
  function AllDownloadable(s: seq<FileEntry>): (r: bool)
    ensures r <==> forall i :: 0 <= i < |s| ==> Downloadable(s[i])
  {
    s == [] || (Downloadable(s[0]) && AllDownloadable(s[1..]))
  }

  class FilemanagerViewModel {
    var selectedFiles: seq<FileEntry>
    var currentPath: string
    var actionObject: Clipboard
    /** The collection last handed to the list helper's `updateItems`. */
    var listItems: seq<FileEntry>
    /** The name field of the rename dialog. */
    var name: string
    var requests: seq<Request>

    ghost predicate Valid()
      reads this
    {
      NoDuplicates(selectedFiles) && (actionObject.Pending? ==> actionObject.sources != [])
    }

    constructor ()
      ensures Valid()
      ensures selectedFiles == [] && currentPath == "" && actionObject == NoAction
      ensures listItems == [] && name == "" && requests == []
    {
      selectedFiles := [];
      currentPath := "";
      actionObject := NoAction;
      listItems := [];
      name := "";
      requests := [];
    }

    // ------------------------------------------------------------ selection

    function IsSelected(data: FileEntry): (r: bool)
      reads this
      ensures r <==> data in selectedFiles
    {
      IndexOf(selectedFiles, data) != -1
    }

    method SelectItem(data: FileEntry)
      requires Valid()
      modifies this`selectedFiles
      ensures Valid()
      ensures IsSelected(data) <==> !old(IsSelected(data))
      ensures forall e :: e != data ==> (e in selectedFiles <==> e in old(selectedFiles))
      ensures selectedFiles == Toggled(old(selectedFiles), data)
    {
      ToggledKeepsNoDuplicates(selectedFiles, data);
      if IsSelected(data) {
        selectedFiles := Without(selectedFiles, data);
      } else {
        selectedFiles := selectedFiles + [data];
      }
    }

    // ------------------------------------------------------------ guards

    function CheckSelectedOrigin(origin: string): (r: bool)
      reads this
      ensures r <==> forall e :: e in selectedFiles ==> e.origin == Some(origin)
    {
      AllOfOrigin(selectedFiles, origin)
    }

    /** The per-entry test in the source's loop has no effect on the answer. */
    function EnableDownload(): (r: bool)
      reads this
      ensures r <==> selectedFiles != []
    {
      |selectedFiles| != 0
    }

    /**
     * The guard `enableDownload` evidently intends: something selected, and every selected entry a
     * local file. It is stricter than the guard as written.
     */
    function EnableDownloadIntended(): (r: bool)
      reads this
      ensures r <==> selectedFiles != [] && forall e :: e in selectedFiles ==> Downloadable(e)
      ensures r ==> EnableDownload()
    {
      |selectedFiles| != 0 && AllDownloadable(selectedFiles)
    }

    function EnableUploadSD(host: Host): (r: bool)
      reads this
      ensures r <==> host.isUser && host.isSdReady && |selectedFiles| == 1 && selectedFiles[0].origin == Some(LocalOrigin)
    {
      host.isUser && |selectedFiles| == 1 && host.isSdReady && CheckSelectedOrigin(LocalOrigin)
    }

    function EnableRemove(host: Host): (r: bool)
      reads this
      ensures r <==> host.isUser && selectedFiles != [] && forall e :: e in selectedFiles ==> host.enableRemove(e)
    {
      if !host.isUser || |selectedFiles| == 0 then false
      else AllRemovable(host, selectedFiles)
    }

    function EnableSlicing(host: Host): (r: bool)
      reads this
      ensures r <==> |selectedFiles| == 1 && IsModel(selectedFiles[0]) && host.enableSlicing(selectedFiles[0])
    {
      if |selectedFiles| != 1 then false
      else IsModel(selectedFiles[0]) && host.enableSlicing(selectedFiles[0])
    }

    function EnableSelect(host: Host, printAfterSelect: bool): (r: bool)
      reads this
      ensures r <==> |selectedFiles| == 1 && IsMachineCode(selectedFiles[0]) && host.enableSelect(selectedFiles[0], printAfterSelect)
    {
      if |selectedFiles| != 1 then false
      else IsMachineCode(selectedFiles[0]) && host.enableSelect(selectedFiles[0], printAfterSelect)
    }

    function EnableRename(host: Host): (r: bool)
      reads this
      ensures r <==> host.isUser && |selectedFiles| == 1 && selectedFiles[0].origin == Some(LocalOrigin)
    {
      host.isUser && |selectedFiles| == 1 && CheckSelectedOrigin(LocalOrigin)
    }

    function EnableCopy(host: Host): (r: bool)
      reads this
      ensures r <==> host.isUser && selectedFiles != [] && forall e :: e in selectedFiles ==> e.origin == Some(LocalOrigin)
    {
      host.isUser && |selectedFiles| > 0 && CheckSelectedOrigin(LocalOrigin)
    }

    function EnablePaste(host: Host): (r: bool)
      reads this
      ensures r ==> actionObject.Pending?
      ensures r <==> host.isUser && Sources(actionObject) != [] && forall e :: e in selectedFiles ==> e.origin == Some(LocalOrigin)
    {
      host.isUser && |Sources(actionObject)| > 0 && CheckSelectedOrigin(LocalOrigin)
    }

    // ------------------------------------------------------------ navigation

    method ChangeFolder(host: Host, data: FileEntry)
      requires Valid()
      modifies this`selectedFiles, this`currentPath, this`listItems
      ensures Valid()
      ensures selectedFiles == [] && currentPath == host.pathForEntry(data) && listItems == data.children
    {
      selectedFiles := [];
      currentPath := host.pathForEntry(data);
      listItems := data.children;
    }

    /** The path is looked up below a root whose children are the host's full item collection. */
    method ChangeFolderByPath(host: Host, path: string)
      modifies this`currentPath, this`listItems
      ensures host.elementByPath(path, host.allItems).Some? ==>
        currentPath == path && listItems == host.elementByPath(path, host.allItems).value.children
      ensures host.elementByPath(path, host.allItems).None? ==>
        currentPath == "" && listItems == host.allItems
    {
      var element := host.elementByPath(path, host.allItems);
      if element.Some? {
        currentPath := path;
        listItems := element.value.children;
      } else {
        currentPath := "";
        listItems := host.allItems;
      }
    }

    /** The subscription to the host's item collection; `host.allItems` is the new collection. */
    method OnItemsChanged(host: Host)
      requires Valid()
      modifies this`selectedFiles, this`currentPath, this`listItems
      ensures Valid()
      ensures selectedFiles == []
      ensures host.elementByPath(old(currentPath), host.allItems).Some? ==>
        currentPath == old(currentPath) && listItems == host.elementByPath(old(currentPath), host.allItems).value.children
      ensures host.elementByPath(old(currentPath), host.allItems).None? ==>
        currentPath == "" && listItems == host.allItems
    {
      listItems := host.allItems;
      selectedFiles := [];
      ChangeFolderByPath(host, currentPath);
    }

    /** A double click opens a folder, or loads a machine-code file the listing lets be selected. */
    method DblClick(host: Host, data: FileEntry)
      requires Valid()
      modifies this`selectedFiles, this`currentPath, this`listItems, this`requests
      ensures Valid()
      ensures IsFolder(data) ==>
        selectedFiles == [] && currentPath == host.pathForEntry(data) && listItems == data.children &&
        requests == old(requests)
      ensures !IsFolder(data) ==>
        selectedFiles == old(selectedFiles) && currentPath == old(currentPath) && listItems == old(listItems) &&
        requests == old(requests) + (if IsMachineCode(data) && host.enableSelect(data, false) then [LoadFile(data, false)] else [])
    {
      if data.kind.None? {
        return;
      }
      if data.kind.value == FolderType {
        ChangeFolder(host, data);
      } else if IsMachineCode(data) && host.enableSelect(data, false) {
        requests := requests + [LoadFile(data, false)];
      }
    }

    // ------------------------------------------------------------ single-entry actions

    method Download()
      modifies this`requests
      ensures requests == old(requests) + (if EnableDownload() then DownloadRequests(selectedFiles) else [])
    {
      if !EnableDownload() {
        return;
      }
      for index := 0 to |selectedFiles|
        invariant requests == old(requests) + DownloadRequests(selectedFiles[..index])
      {
        requests := requests + [DownloadFile(selectedFiles[index], DownloadCookie(index))];
      }
      assert selectedFiles[..|selectedFiles|] == selectedFiles;
    }

    method UploadSD(host: Host)
      modifies this`requests
      ensures requests == old(requests) +
        if EnableUploadSD(host)
        then [PostJson(ApiFilesUrl + LocalOrigin + "/" + host.pathForEntry(selectedFiles[0]), CommandOnly("uploadSd"))]
        else []
    {
      if !EnableUploadSD(host) {
        return;
      }
      var element := selectedFiles[0];
      var path := host.pathForEntry(element);
      requests := requests + [PostJson(ApiFilesUrl + LocalOrigin + "/" + path, CommandOnly("uploadSd"))];
    }

    method Slice(host: Host)
      modifies this`requests
      ensures requests == old(requests) + if EnableSlicing(host) then [SliceFile(selectedFiles[0])] else []
    {
      if !EnableSlicing(host) {
        return;
      }
      requests := requests + [SliceFile(selectedFiles[0])];
    }

    method LoadSelected(host: Host, printAfterSelect: bool)
      modifies this`requests
      ensures requests == old(requests) +
        if EnableSelect(host, printAfterSelect) then [LoadFile(selectedFiles[0], printAfterSelect)] else []
    {
      if !EnableSelect(host, printAfterSelect) {
        return;
      }
      requests := requests + [LoadFile(selectedFiles[0], printAfterSelect)];
    }

    /** Opening the rename dialog fills its name field with the selected entry's name. */
    method Rename(host: Host)
      modifies this`name
      ensures name == if EnableRename(host) then selectedFiles[0].name else old(name)
    {
      if !EnableRename(host) {
        return;
      }
      name := selectedFiles[0].name;
    }

    /**
     * The dialog's confirm button: the destination is the path the entry would have under the new
     * name; the entry itself keeps its old name.
     */
    method ConfirmRename(host: Host, newName: string)
      requires selectedFiles != []
      modifies this`name, this`requests
      ensures name == newName
      ensures selectedFiles == old(selectedFiles)
      ensures requests == old(requests) +
        [MoveFile(LocalOrigin, host.pathForEntry(selectedFiles[0]), host.pathForEntry(selectedFiles[0].(name := newName)))]
    {
      name := newName;
      var element := selectedFiles[0];
      var source := host.pathForEntry(element);
      var destination := host.pathForEntry(element.(name := name));
      requests := requests + [MoveFile(LocalOrigin, source, destination)];
    }

    // ------------------------------------------------------------ bulk actions

    method Remove(host: Host)
      modifies this`requests
      ensures requests == old(requests) + if EnableRemove(host) then RemoveRequests(host, selectedFiles) else []
    {
      if !EnableRemove(host) {
        return;
      }
      if |selectedFiles| > 1 {
        var selected := selectedFiles;
        var order, sortedByOrigins := GroupByOrigin(host, selected);
        ghost var deletes := RemoveRequests(host, selected);
        assert |deletes| == |order|;
        for k := 0 to |order|
          invariant requests == old(requests) + deletes[..k]
        {
          var origin := order[k];
          assert deletes[k] == DeleteRequest(host, selected, origin);
          assert deletes[..k + 1] == deletes[..k] + [deletes[k]];
          requests := requests + [PostJson(ApiFilesUrl + origin + "/bulkOperation", Bulk("delete", sortedByOrigins[origin], None))];
        }
        assert deletes[..|order|] == deletes;
      } else {
        requests := requests + [RemoveFile(selectedFiles[0])];
      }
    }

    method Copy(host: Host)
      requires Valid()
      modifies this`actionObject, this`selectedFiles
      ensures Valid()
      ensures old(EnableCopy(host)) ==>
        actionObject == Pending(CopyAction, Paths(host, old(selectedFiles))) && selectedFiles == []
      ensures !old(EnableCopy(host)) ==>
        actionObject == old(actionObject) && selectedFiles == old(selectedFiles)
    {
      if !EnableCopy(host) {
        return;
      }
      var paths := CollectPaths(host, selectedFiles);
      actionObject := Pending(CopyAction, paths);
      selectedFiles := [];
    }

    /** `cut` is guarded by `enableRemove` and the local-origin check, not by `enableCopy`. */
    method Cut(host: Host)
      requires Valid()
      modifies this`actionObject, this`selectedFiles
      ensures Valid()
      ensures old(EnableRemove(host) && CheckSelectedOrigin(LocalOrigin)) ==>
        actionObject == Pending(MoveAction, Paths(host, old(selectedFiles))) && selectedFiles == []
      ensures !old(EnableRemove(host) && CheckSelectedOrigin(LocalOrigin)) ==>
        actionObject == old(actionObject) && selectedFiles == old(selectedFiles)
    {
      if !EnableRemove(host) || !CheckSelectedOrigin(LocalOrigin) {
        return;
      }
      var paths := CollectPaths(host, selectedFiles);
      actionObject := Pending(MoveAction, paths);
      selectedFiles := [];
    }

    /** The inner `action(data)` of `paste`. */
    method SendPaste(kind: ActionKind, sources: seq<string>, destination: string)
      requires sources != []
      modifies this`requests
      ensures requests == old(requests) + PasteAction(kind, sources, destination)
    {
      if |sources| > 1 {
        requests := requests + [PostJson(ApiFilesUrl + LocalOrigin + "/bulkOperation", Bulk(CommandName(kind), sources, Some(destination)))];
      } else if kind == CopyAction {
        requests := requests + [CopyFile(LocalOrigin, sources[0], destination)];
      } else if kind == MoveAction {
        requests := requests + [MoveFile(LocalOrigin, sources[0], destination)];
      }
    }

    /** Once its guard passes, `paste` empties the clipboard whether or not it sends anything. */
    method Paste(host: Host)
      requires Valid()
      modifies this`actionObject, this`requests
      ensures Valid()
      ensures old(EnablePaste(host)) ==>
        actionObject == NoAction &&
        requests == old(requests) + PasteRequests(host, selectedFiles, old(actionObject).kind, old(actionObject).sources, currentPath)
      ensures !old(EnablePaste(host)) ==>
        actionObject == old(actionObject) && requests == old(requests)
    {
      if !EnablePaste(host) {
        return;
      }
      var command, sources, destinations := actionObject.kind, actionObject.sources, currentPath;
      actionObject := NoAction;
      if |selectedFiles| == 0 {
        SendPaste(command, sources, destinations);
      } else if |selectedFiles| == 1 {
        var dst := selectedFiles[0];
        if dst.kind == Some(FolderType) {
          destinations := host.pathForEntry(dst);
        }
        SendPaste(command, sources, destinations);
      }
    }
  }

  /**
   * The per-entry test of `enableDownload` is discarded: a selected folder or SD card entry still
   * enables download, and `download` then starts a download of that very entry, although the
   * intended guard is off.
   */
  lemma EnableDownloadIgnoresEntryCheck(v: FilemanagerViewModel, e: FileEntry)
    requires e in v.selectedFiles && !Downloadable(e)
    ensures v.EnableDownload() && !v.EnableDownloadIntended()
    ensures exists i: nat :: DownloadFile(e, DownloadCookie(i)) in DownloadRequests(v.selectedFiles)
  {
    var sel := v.selectedFiles;
    var i := IndexOf(sel, e);
    assert DownloadRequests(sel)[i] == DownloadFile(e, DownloadCookie(i));
  }

  /** Under the intended guard, every download `download` starts is of a local file. */
  lemma IntendedDownloadsOnlyLocalFiles(v: FilemanagerViewModel)
    requires v.EnableDownloadIntended()
    ensures forall r :: r in DownloadRequests(v.selectedFiles) ==>
      r.DownloadFile? && r.entry.origin == Some(LocalOrigin) && !IsFolder(r.entry)
  {
    var sel := v.selectedFiles;
    forall r | r in DownloadRequests(sel)
      ensures r.DownloadFile? && r.entry.origin == Some(LocalOrigin) && !IsFolder(r.entry)
    {
      var i :| 0 <= i < |sel| && DownloadRequests(sel)[i] == r;
      assert sel[i] in sel;
    }
  }

  /**
   * Slicing wants one model file and loading one machine-code file, so the two are never enabled
   * together; either needs exactly one selected entry, and that entry is not a folder.
   */
  lemma SliceAndLoadGuards(v: FilemanagerViewModel, host: Host, printAfterSelect: bool)
    ensures !(v.EnableSlicing(host) && v.EnableSelect(host, printAfterSelect))
    ensures v.EnableSlicing(host) || v.EnableSelect(host, printAfterSelect) ==>
      |v.selectedFiles| == 1 && !IsFolder(v.selectedFiles[0])
  {
  }

  /**
   * Two local files copied and pasted with nothing selected give one bulk copy of both paths into
   * the current folder, and the clipboard is empty afterwards.
   */
  method CopyThenPasteScenario(host: Host, a: FileEntry, b: FileEntry)
    requires host.isUser && a != b
    requires a.origin == Some(LocalOrigin) && b.origin == Some(LocalOrigin)
  {
    var vm := new FilemanagerViewModel();
    vm.SelectItem(a);
    vm.SelectItem(b);
    assert vm.selectedFiles == [a, b];
    vm.Copy(host);
    assert vm.actionObject == Pending(CopyAction, [host.pathForEntry(a), host.pathForEntry(b)]);
    PasteDispatch(host, [], CopyAction, [host.pathForEntry(a), host.pathForEntry(b)], "");
    vm.Paste(host);
    assert vm.actionObject == NoAction;
    assert vm.requests == [PostJson(ApiFilesUrl + "local/bulkOperation",
                                    Bulk("copy", [host.pathForEntry(a), host.pathForEntry(b)], Some("")))];
  }
}
