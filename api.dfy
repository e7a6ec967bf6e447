/**
 * What the file manager consumes from its host application: the capability checks and lookups
 * of the host's file listing and login state, and the calls it makes, kept as a request log.
 */
module Api {
  import opened Wrappers
  import opened Entries

  const ApiBaseUrl: string := "plugin/filemanager/"
  const ApiFilesUrl: string := ApiBaseUrl + "files/"

  /**
   * The host as seen at the moment of a call: the login state, the SD card state, the listing's
   * per-entry capability checks, its canonical-path function, its lookup of a path below a root,
   * and the listing's full item collection.
   */
  datatype Host = Host(
    isUser: bool,
    isSdReady: bool,
    enableRemove: FileEntry -> bool,
    enableSlicing: FileEntry -> bool,
    enableSelect: (FileEntry, bool) -> bool,
    pathForEntry: FileEntry -> string,
    elementByPath: (string, seq<FileEntry>) -> Option<FileEntry>,
    allItems: seq<FileEntry>)

  /** The JSON body of a POST: a bare command, or a command over a list of source paths. */
  datatype Body =
    | CommandOnly(command: string)
    | Bulk(command: string, sources: seq<string>, destinations: Option<string>)

  /** One outgoing call to the host's file API. */
  datatype Request =
    | PostJson(url: string, body: Body)
    | CopyFile(origin: string, source: string, destination: string)
    | MoveFile(origin: string, source: string, destination: string)
    | RemoveFile(entry: FileEntry)
    | LoadFile(entry: FileEntry, printAfterSelect: bool)
    | SliceFile(entry: FileEntry)
    | DownloadFile(entry: FileEntry, cookieName: string)
}
