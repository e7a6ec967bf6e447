/** The entries of the file tree, as the host's file listing hands them to the file manager. */
module Entries {
  import opened Wrappers

  const FolderType: string := "folder"
  const MachineCodeType: string := "machinecode"
  const ModelType: string := "model"
  const LocalOrigin: string := "local"
  const SdCardOrigin: string := "sdcard"

  /** The `prints` record of an entry; only its success counter is consulted. */
  datatype Prints = Prints(success: Option<int>)

  /**
   * One row of the file tree. Every property but `name` may be missing from the record, so each
   * is optional here; `kind` is the record's `type` property. A leaf has no children.
   */
  datatype FileEntry = FileEntry(
    name: string,
    kind: Option<string>,
    origin: Option<string>,
    size: Option<int>,
    date: Option<int>,
    prints: Option<Prints>,
    children: seq<FileEntry>)

  predicate IsFolder(e: FileEntry)
  {
    e.kind == Some(FolderType)
  }

  /** The type test of the `machinecode` filter, of `enableSelect` and of a double click. */
  predicate IsMachineCode(e: FileEntry)
  {
    e.kind == Some(MachineCodeType)
  }

  /** The type test of the `model` filter and of `enableSlicing`. */
  predicate IsModel(e: FileEntry)
  {
    e.kind == Some(ModelType)
  }
}
