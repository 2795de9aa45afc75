// The record the scanner hands to the analyzer (scanner.py). Scanning the
// directory tree itself is not part of this model.

module Scanner {
  import opened Wrappers
  import opened Paths

  /** `FileInfo`: what is known about one file. `content` is the text read from it, if any. */
  datatype FileInfo = FileInfo(
    path: Path,
    name: string,
    extension: string,
    sizeBytes: nat,
    content: Option<string>,
    mimeType: Option<string>)

  /** Python truthiness of `file_info.content`: present and non-empty. */
  predicate HasContent(f: FileInfo) {
    f.content.Some? && f.content.value != ""
  }
}
