/**
 * What the bulk actions send to the host: the clipboard that copy and cut fill and paste
 * consumes, the requests of paste, the per-origin grouping of remove, and the download tokens.
 */
module Dispatch {
  import opened Wrappers
  import opened Text
  import opened Entries
  import opened Api
  import opened Selection

  datatype ActionKind = CopyAction | MoveAction

  /** The `command` a pending action is sent with. */
  function CommandName(k: ActionKind): (r: string)
  {
    match k
    case CopyAction => "copy"
    case MoveAction => "move"
  }

  /** The clipboard `{action, array}`: nothing pending, or an action with its source paths. */
  datatype Clipboard = NoAction | Pending(kind: ActionKind, sources: seq<string>)

  function Sources(c: Clipboard): (r: seq<string>)
  {
    match c
    case NoAction => []
    case Pending(_, s) => s
  }

  /** The canonical paths of the given entries, in the same order. */
  function Paths(host: Host, s: seq<FileEntry>): (r: seq<string>)
  {
    seq(|s|, i requires 0 <= i < |s| => host.pathForEntry(s[i]))
  }

  /** The loop of `copy` and `cut` that pushes each selected entry's path onto the new action's array. */
  method CollectPaths(host: Host, s: seq<FileEntry>) returns (paths: seq<string>)
    ensures paths == Paths(host, s)
  {
    paths := [];
    for i := 0 to |s|
      invariant |paths| == i
      invariant forall k :: 0 <= k < i ==> paths[k] == host.pathForEntry(s[k])
    {
      paths := paths + [host.pathForEntry(s[i])];
    }
  }

  // ---------------------------------------------------------------- remove

  /** An entry the grouping loop of `remove` keeps: the listing lets it be removed and it has an origin. */
  predicate Removable(host: Host, e: FileEntry)
  {
    host.enableRemove(e) && e.origin.Some?
  }

  /** The keys of `sortedByOrigins`, in the order the loop inserts them. */
  function OriginsInOrder(host: Host, s: seq<FileEntry>): (r: seq<string>)
    decreases |s|
  {
    if s == [] then []
    else
      var prev := OriginsInOrder(host, s[..|s| - 1]);
      var e := s[|s| - 1];
      if Removable(host, e) && e.origin.value !in prev then prev + [e.origin.value] else prev
  }

  /** The path list `sortedByOrigins[o]`: the paths of the kept entries of origin `o`, in selection order. */
  function PathsFrom(host: Host, s: seq<FileEntry>, o: string): (r: seq<string>)
    decreases |s|
  {
    if s == [] then []
    else
      var e := s[|s| - 1];
      PathsFrom(host, s[..|s| - 1], o) + (if Removable(host, e) && e.origin == Some(o) then [host.pathForEntry(e)] else [])
  }

  /** Each origin of a kept entry is a key exactly once, and nothing else is. */
  lemma {:induction false} OriginsInOrderSpec(host: Host, s: seq<FileEntry>)
    ensures NoDuplicates(OriginsInOrder(host, s))
    ensures forall o :: o in OriginsInOrder(host, s) <==>
      exists i :: 0 <= i < |s| && Removable(host, s[i]) && s[i].origin == Some(o)
    decreases |s|
  {
    if s != [] {
      var init := s[..|s| - 1];
      OriginsInOrderSpec(host, init);
      forall o
        ensures (exists i :: 0 <= i < |s| && Removable(host, s[i]) && s[i].origin == Some(o)) <==>
                (exists i :: 0 <= i < |init| && Removable(host, init[i]) && init[i].origin == Some(o)) ||
                (Removable(host, s[|s| - 1]) && s[|s| - 1].origin == Some(o))
      {
        if exists i :: 0 <= i < |s| && Removable(host, s[i]) && s[i].origin == Some(o) {
          var i :| 0 <= i < |s| && Removable(host, s[i]) && s[i].origin == Some(o);
          if i < |init| {
            assert init[i] == s[i];
          }
        }
        if exists i :: 0 <= i < |init| && Removable(host, init[i]) && init[i].origin == Some(o) {
          var i :| 0 <= i < |init| && Removable(host, init[i]) && init[i].origin == Some(o);
          assert s[i] == init[i];
        }
      }
    }
  }

  /**
   * The paths sent for origin `o` are exactly the paths of the kept entries of that origin, and an
   * origin that is not a key has none.
   */
  lemma {:induction false} PathsFromSpec(host: Host, s: seq<FileEntry>, o: string)
    ensures forall p :: p in PathsFrom(host, s, o) <==>
      exists i :: 0 <= i < |s| && Removable(host, s[i]) && s[i].origin == Some(o) && host.pathForEntry(s[i]) == p
    ensures o !in OriginsInOrder(host, s) ==> PathsFrom(host, s, o) == []
    decreases |s|
  {
    if s != [] {
      var init := s[..|s| - 1];
      PathsFromSpec(host, init, o);
      forall p
        ensures p in PathsFrom(host, s, o) <==>
          exists i :: 0 <= i < |s| && Removable(host, s[i]) && s[i].origin == Some(o) && host.pathForEntry(s[i]) == p
      {
        if exists i :: 0 <= i < |s| && Removable(host, s[i]) && s[i].origin == Some(o) && host.pathForEntry(s[i]) == p {
          var i :| 0 <= i < |s| && Removable(host, s[i]) && s[i].origin == Some(o) && host.pathForEntry(s[i]) == p;
          if i < |init| {
            assert init[i] == s[i];
          }
        }
        if p in PathsFrom(host, init, o) {
          var i :| 0 <= i < |init| && Removable(host, init[i]) && init[i].origin == Some(o) && host.pathForEntry(init[i]) == p;
          assert s[i] == init[i];
        }
      }
    }
  }

  /** The paths sent for one origin keep the order of the selection. */
  lemma {:induction false} PathsFromInOrder(host: Host, s: seq<FileEntry>, o: string)
    ensures IsSubsequence(PathsFrom(host, s, o), Paths(host, s))
    decreases |s|
  {
    if s != [] {
      var init := s[..|s| - 1];
      var e := s[|s| - 1];
      PathsFromInOrder(host, init, o);
      assert Paths(host, s) == Paths(host, init) + [host.pathForEntry(e)];
      SubsequenceExtend(PathsFrom(host, init, o), Paths(host, init), host.pathForEntry(e));
      if Removable(host, e) && e.origin == Some(o) {
        assert PathsFrom(host, s, o) == PathsFrom(host, init, o) + [host.pathForEntry(e)];
      } else {
        assert PathsFrom(host, s, o) == PathsFrom(host, init, o);
      }
    }
  }

  /** The bulk delete sent for one origin. */
  function DeleteRequest(host: Host, s: seq<FileEntry>, o: string): (r: Request)
  {
    PostJson(ApiFilesUrl + o + "/bulkOperation", Bulk("delete", PathsFrom(host, s, o), None))
  }

  /** The calls `remove` makes once its guard has passed. */
  function RemoveRequests(host: Host, sel: seq<FileEntry>): (r: seq<Request>)
    requires sel != []
  {
    if |sel| > 1 then
      var origins := OriginsInOrder(host, sel);
      seq(|origins|, k requires 0 <= k < |origins| => DeleteRequest(host, sel, origins[k]))
    else
      [RemoveFile(sel[0])]
  }

  /** The loop of `remove` that fills the `sortedByOrigins` dictionary. */
  method GroupByOrigin(host: Host, sel: seq<FileEntry>) returns (order: seq<string>, groups: map<string, seq<string>>)
    ensures order == OriginsInOrder(host, sel)
    ensures forall o :: o in groups <==> o in order
    ensures forall o :: o in groups ==> groups[o] == PathsFrom(host, sel, o)
  {
    order, groups := [], map[];
    for i := 0 to |sel|
      invariant order == OriginsInOrder(host, sel[..i])
      invariant forall o :: o in groups <==> o in order
      invariant forall o :: o in groups ==> groups[o] == PathsFrom(host, sel[..i], o)
      invariant forall o :: o !in groups ==> PathsFrom(host, sel[..i], o) == []
    {
      assert sel[..i + 1][..i] == sel[..i];
      assert sel[..i + 1][i] == sel[i];
      var element := sel[i];
      if !host.enableRemove(element) || element.origin.None? {
        continue;
      }
      var origin := element.origin.value;
      if origin !in groups {
        groups := groups[origin := []];
        order := order + [origin];
      }
      groups := groups[origin := groups[origin] + [host.pathForEntry(element)]];
    }
    assert sel[..|sel|] == sel;
  }

  /**
   * With more than one entry selected, `remove` sends one bulk delete per distinct origin among the
   * kept entries, each to its own origin's URL, and nothing else; each carries its origin's paths
   * in selection order.
   */
  lemma RemoveSendsOneDeletePerOrigin(host: Host, sel: seq<FileEntry>)
    requires |sel| > 1
    ensures |RemoveRequests(host, sel)| == |OriginsInOrder(host, sel)|
    ensures forall r :: r in RemoveRequests(host, sel) ==>
      exists o :: o in OriginsInOrder(host, sel) && r == DeleteRequest(host, sel, o)
    ensures forall o :: IsSubsequence(DeleteRequest(host, sel, o).body.sources, Paths(host, sel))
    ensures forall r :: r in RemoveRequests(host, sel) ==> r.PostJson? && r.body == Bulk("delete", r.body.sources, None)
    ensures forall j, k :: 0 <= j < k < |RemoveRequests(host, sel)| ==>
      RemoveRequests(host, sel)[j].url != RemoveRequests(host, sel)[k].url
    ensures forall o :: DeleteRequest(host, sel, o) in RemoveRequests(host, sel) <==>
      exists i :: 0 <= i < |sel| && Removable(host, sel[i]) && sel[i].origin == Some(o)
  {
    var origins := OriginsInOrder(host, sel);
    var rs := RemoveRequests(host, sel);
    OriginsInOrderSpec(host, sel);
    forall o
      ensures IsSubsequence(DeleteRequest(host, sel, o).body.sources, Paths(host, sel))
    {
      PathsFromInOrder(host, sel, o);
    }
    forall r | r in rs
      ensures exists o :: o in origins && r == DeleteRequest(host, sel, o)
    {
      var k :| 0 <= k < |rs| && rs[k] == r;
      assert origins[k] in origins;
    }
    forall j, k | 0 <= j < k < |rs|
      ensures rs[j].url != rs[k].url
    {
      if rs[j].url == rs[k].url {
        FrameCancels(ApiFilesUrl, origins[j], origins[k], "/bulkOperation");
        assert false;
      }
    }
    forall o
      ensures DeleteRequest(host, sel, o) in rs <==> o in origins
    {
      if DeleteRequest(host, sel, o) in rs {
        var k :| 0 <= k < |rs| && rs[k] == DeleteRequest(host, sel, o);
        FrameCancels(ApiFilesUrl, origins[k], o, "/bulkOperation");
      }
      if o in origins {
        var k :| 0 <= k < |origins| && origins[k] == o;
        assert rs[k] == DeleteRequest(host, sel, o);
      }
    }
  }

  /**
   * Three removable entries, two local around one on the SD card, give exactly two bulk deletes:
   * the local one first, carrying both local paths in selection order, then the SD card one.
   */
  lemma RemoveExample(host: Host, a: FileEntry, b: FileEntry, c: FileEntry)
    requires a.origin == Some(LocalOrigin) && b.origin == Some(SdCardOrigin) && c.origin == Some(LocalOrigin)
    requires host.enableRemove(a) && host.enableRemove(b) && host.enableRemove(c)
    ensures RemoveRequests(host, [a, b, c]) ==
      [PostJson(ApiFilesUrl + "local/bulkOperation", Bulk("delete", [host.pathForEntry(a), host.pathForEntry(c)], None)),
       PostJson(ApiFilesUrl + "sdcard/bulkOperation", Bulk("delete", [host.pathForEntry(b)], None))]
  {
    ExampleOrigins(host, a, b, c);
    ExamplePaths(host, a, b, c);
    assert ApiFilesUrl + LocalOrigin + "/bulkOperation" == ApiFilesUrl + "local/bulkOperation";
    assert ApiFilesUrl + SdCardOrigin + "/bulkOperation" == ApiFilesUrl + "sdcard/bulkOperation";
  }

  lemma ExampleOrigins(host: Host, a: FileEntry, b: FileEntry, c: FileEntry)
    requires a.origin == Some(LocalOrigin) && b.origin == Some(SdCardOrigin) && c.origin == Some(LocalOrigin)
    requires host.enableRemove(a) && host.enableRemove(b) && host.enableRemove(c)
    ensures OriginsInOrder(host, [a, b, c]) == [LocalOrigin, SdCardOrigin]
  {
    assert [a, b, c][..2] == [a, b] && [a, b][..1] == [a] && [a][..0] == [];
    assert OriginsInOrder(host, [a]) == [LocalOrigin];
    assert OriginsInOrder(host, [a, b]) == [LocalOrigin, SdCardOrigin];
  }

  lemma ExamplePaths(host: Host, a: FileEntry, b: FileEntry, c: FileEntry)
    requires a.origin == Some(LocalOrigin) && b.origin == Some(SdCardOrigin) && c.origin == Some(LocalOrigin)
    requires host.enableRemove(a) && host.enableRemove(b) && host.enableRemove(c)
    ensures PathsFrom(host, [a, b, c], LocalOrigin) == [host.pathForEntry(a), host.pathForEntry(c)]
    ensures PathsFrom(host, [a, b, c], SdCardOrigin) == [host.pathForEntry(b)]
  {
    assert [a, b, c][..2] == [a, b] && [a, b][..1] == [a] && [a][..0] == [];
    assert LocalOrigin != SdCardOrigin;
    assert PathsFrom(host, [a], LocalOrigin) == [host.pathForEntry(a)];
    assert PathsFrom(host, [a, b], LocalOrigin) == [host.pathForEntry(a)];
    assert PathsFrom(host, [a], SdCardOrigin) == [];
    assert PathsFrom(host, [a, b], SdCardOrigin) == [host.pathForEntry(b)];
  }

  // ---------------------------------------------------------------- paste

  /** The paste target: the one selected entry when it is a folder, the current folder otherwise. */
  function PasteDestination(host: Host, sel: seq<FileEntry>, currentPath: string): (r: string)
  {
    if |sel| == 1 && IsFolder(sel[0]) then host.pathForEntry(sel[0]) else currentPath
  }

  /** The inner `action(data)` of `paste`: one bulk request for several sources, else one copy or move. */
  function PasteAction(kind: ActionKind, sources: seq<string>, destination: string): (r: seq<Request>)
    requires sources != []
  {
    if |sources| > 1 then
      [PostJson(ApiFilesUrl + LocalOrigin + "/bulkOperation", Bulk(CommandName(kind), sources, Some(destination)))]
    else
      match kind
      case CopyAction => [CopyFile(LocalOrigin, sources[0], destination)]
      case MoveAction => [MoveFile(LocalOrigin, sources[0], destination)]
  }

  /** The calls `paste` makes once its guard has passed: none when two or more entries are selected. */
  function PasteRequests(host: Host, sel: seq<FileEntry>, kind: ActionKind, sources: seq<string>, currentPath: string): (r: seq<Request>)
    requires sources != []
  {
    if |sel| <= 1 then PasteAction(kind, sources, PasteDestination(host, sel, currentPath)) else []
  }

  /**
   * `paste` makes exactly one call when at most one entry is selected and none otherwise; the call
   * targets the selected folder or else the current path, is a bulk operation carrying every source
   * when there are several, and otherwise a copy or move of the one source matching the action.
   */
  lemma PasteDispatch(host: Host, sel: seq<FileEntry>, kind: ActionKind, sources: seq<string>, currentPath: string)
    requires sources != []
    ensures var rs := PasteRequests(host, sel, kind, sources, currentPath);
      var target := if |sel| == 1 && IsFolder(sel[0]) then host.pathForEntry(sel[0]) else currentPath;
      |rs| == (if |sel| <= 1 then 1 else 0) &&
      (|sel| <= 1 && |sources| > 1 ==>
        rs[0] == PostJson(ApiFilesUrl + "local/bulkOperation", Bulk(CommandName(kind), sources, Some(target)))) &&
      (|sel| <= 1 && |sources| == 1 && kind == CopyAction ==> rs[0] == CopyFile("local", sources[0], target)) &&
      (|sel| <= 1 && |sources| == 1 && kind == MoveAction ==> rs[0] == MoveFile("local", sources[0], target))
  {
    assert ApiFilesUrl + LocalOrigin + "/bulkOperation" == ApiFilesUrl + "local/bulkOperation";
  }

  // ---------------------------------------------------------------- download

  /** The cookie that tags the download of the `index`-th selected entry. */
  function DownloadCookie(index: nat): (r: string)
  {
    "fileDownload" + NatToDecimal(index)
  }

  /** The downloads `download` starts: one per selected entry, in order, each with its own cookie. */
  function DownloadRequests(sel: seq<FileEntry>): (r: seq<Request>)
  {
    seq(|sel|, i requires 0 <= i < |sel| => DownloadFile(sel[i], DownloadCookie(i)))
  }

  /** No two downloads of one `download` share a cookie. */
  lemma DownloadCookiesDistinct(i: nat, j: nat)
    requires i != j
    ensures DownloadCookie(i) != DownloadCookie(j)
  {
    if DownloadCookie(i) == DownloadCookie(j) {
      PrefixCancels("fileDownload", NatToDecimal(i), NatToDecimal(j));
      NatToDecimalInjective(i, j);
    }
  }
}
