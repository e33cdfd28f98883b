# greprs search core in Dafny

This project models the search core of greprs, a grep-like command line tool
(`src/search.rs`). The core has three parts:

- **`search_file`** reads one file and writes its output. In full mode it
  writes one record per selected line: an optional `path:` prefix, an
  optional 1-based `number:` field, then the line and a newline. The summary
  modes instead write a single final record: `-c` writes a count, `-l` writes
  the path when some line was selected, and `-L` writes the path when none
  was. A line is selected when the regex matches it, or when it does not
  match and `-v` is given.
- **`search_large_file`** is the streaming path taken for files larger than
  50 MiB. It writes the same records, one line at a time, and stops at the
  first selected line under `-l`.
- **`visit_path`** walks a path. A file is searched. A directory gives
  different results depending on the case:
  - Without recursion it writes a notice.
  - With recursion, a directory with more than ten entries is searched in
    parallel. Each entry goes into its own buffer, and the buffers are then
    written out in listing order. An entry's error is logged and does not
    stop its siblings.
  - A smaller directory is searched one entry after another into the shared
    writer. There the first error ends the directory and is returned.

The Dafny files hold four modules:

- `strings.dfy` (`Strings`): line splitting as Rust's `lines()` does it, decimal
  rendering of numbers, and concatenation.
- `output.dfy` (`Output`): the writer as a `Sink` class whose contents only grow.
- `search.dfy` (`Search`): the configuration, line selection, the record layout
  and its parser, and the specification function `SearchResult` of a file's
  output. It also holds the methods `SearchFile`, `SearchLargeFile` and their
  loops, proved against that function, and the lemmas for each output mode.
- `walk.dfy` (`Walk`): the file tree as a datatype `Entry` and the specification
  function `Visit`. The method `VisitPath` with its parallel and sequential
  branches is proved against `Visit`. The lemmas relate the two branches and
  show that an error-free recursive walk writes every file's output in
  depth-first listing order.

The regex is a parameter `isMatch: string -> bool`. The file system is a value:
- a file is `Missing` (its metadata cannot be read);
- or `Unreadable(size)` (opening or reading it fails);
- or `Readable(content)`.

A directory's listing is `ListFailed` or `Listed(entries)`.

In places the code behaves differently from a plain description of grep. The
model follows the code:

- When several output modes are set, the final record gives priority to count,
  then files-with-matches, then files-without-match. With `-l` and `-L` both
  given, a file without a selected line is still listed.
- `-c` together with `-l` counts at most one line, because the scan stops at
  the first selected line.
- A non-recursive search of a directory writes `greprs: <path>: Is a directory`
  and does not look inside it.
- Errors stop the sequential branch (ten entries or fewer) but not the
  parallel one. So the same failing entry aborts a small directory and only
  drops that entry in a large one.
- A zero-length file writes nothing in any mode, not even `0` under `-c` or
  its path under `-L`.

## Model

| member | source | states |
|---|---|---|
| Strings.Lines | src/search.rs:96 | the lines of a text are empty only for the empty text, and no line holds a newline |
| Strings.LinesOfJoinLines | src/search.rs:96 | text made of newline-terminated lines with no `\r` ending is split back into exactly those lines |
| Strings.JoinLinesOfLines | src/search.rs:160 | a text without `\r` whose last line is terminated is rebuilt exactly by writing each line followed by a newline |
| Strings.Decimal | src/search.rs:119 | a rendered line number is a non-empty string of digits without a leading zero unless it is 0 |
| Strings.ParseDecimalOfDecimal | src/search.rs:135 | a rendered number reads back as the same number |
| Search.SelectedCount | src/search.rs:97-99 | the number of selected lines is at most the number of lines, and it is 0 exactly when no line is selected |
| Search.InvertedCountsComplement | src/search.rs:97 | the lines selected with and without `-v` together make up every line exactly once |
| Search.SelectedCountMonotone | src/search.rs:96-99 | looking at more lines never lowers the count of selected lines |
| Search.SelectedIndicesSelected | src/search.rs:108-109 | every line the full mode writes is a selected line |
| Search.SelectedIndicesComplete | src/search.rs:108-109 | every selected line is written |
| Search.SelectedIndicesIncreasing | src/search.rs:108 | the written lines appear in file order, each at most once |
| Search.EmittedIsSelectedRecords | src/search.rs:108-127 | the full-mode loop writes exactly one record per selected line, in line order, and nothing else |
| Search.ParseRecordOfRecord | src/search.rs:113-123 | a record gives back its 1-based line number (when `-n` is set) and its line unchanged, whatever the path and line contain |
| Search.PathHiddenByNoFilename | src/search.rs:92-117 | with `no_filename` set and neither `-l` nor `-L`, a file's output is the same whatever its path |
| Search.ReportedCount | src/search.rs:95-104 | the count written is at most the number of lines, at most 1 under `-l`, and 0 exactly when no line is selected |
| Search.FullModeOutput | src/search.rs:105-128 | without a summary mode the output is the selected lines' records in order, as many as there are selected lines |
| Search.CountModeOutput | src/search.rs:131-135 | under `-c` the whole output is one count record that reads back as the number of selected lines, or as 0/1 when `-l` is also set |
| Search.FilesWithMatchesOutput | src/search.rs:136-139 | under `-l` without `-c` the output is the path once if some line is selected; otherwise it is the path only when `-L` is also set, and empty if not |
| Search.FilesWithMatchesStopsEarly | src/search.rs:100-102 | under `-l`, the output is fixed by the lines up to the first selected one, so breaking there loses nothing |
| Search.FilesWithoutMatchListing | src/search.rs:138-139 | under `-L` alone a readable file is listed exactly when it is non-empty and none of its lines is selected |
| Search.EmptyFileWritesNothing | src/search.rs:76-79 | a file of size zero succeeds and writes nothing in every mode, whether or not it could be opened, while a file holding one empty line writes a record under `-c` |
| Search.WriteSummary | src/search.rs:130-140 | writes the count record, or the path under `-l` with a match, or under `-L` without one, in that priority, and nothing else |
| Search.SearchFile | src/search.rs:66-143 | fails for a missing path, succeeds silently for a zero-size file, and fails for an unreadable one; a large file goes to the streaming path; otherwise it writes exactly the file's specified output and succeeds |
| Search.CountSelected | src/search.rs:94-104 | returns the count to report and whether some line is selected, stopping at the first selected line under `-l` |
| Search.WriteSelectedLines | src/search.rs:105-128 | appends the selected lines' records in order and returns their count and whether there was one |
| Search.FillRecord | src/search.rs:113-123 | the per-line buffer holds exactly the line's record |
| Search.SearchLargeFile | src/search.rs:146-192 | the streaming loop appends exactly what the in-memory path writes for the same lines, in every mode, including the early stop under `-l` |
| Search.WriteRecord | src/search.rs:166-173 | the three writes of a streamed record append exactly that record |
| Walk.VisitPath | src/search.rs:18-64 | appends exactly the specified output of the walk of a path and returns its success |
| Walk.CollectBuffers | src/search.rs:34-43 | the parallel map returns every entry's own output, one buffer per entry, in listing order, whatever fails |
| Walk.WriteBuffers | src/search.rs:45-50 | writing the buffers, with empty ones skipped, appends their concatenation in order |
| Walk.VisitSequential | src/search.rs:52-55 | the sequential branch appends the entries' output in order and stops at the first failing entry with its failure |
| Walk.SequentialWithoutErrors | src/search.rs:33-56 | when no entry fails, the sequential branch writes and returns what the parallel branch does |
| Walk.SequentialStopsAtFirstError | src/search.rs:38-40 | when entry `k` is the first to fail, the sequential branch writes entries `0` to `k` and fails; the parallel branch writes that followed by every later entry's output, and succeeds |
| Walk.NonRecursiveDirectory | src/search.rs:57-58 | a non-recursive search writes the directory notice and succeeds whatever the directory holds |
| Walk.WalkIsFileOrder | src/search.rs:25-63 | a recursive walk of a tree without errors succeeds and writes each file's output in depth-first listing order, whichever branch each directory takes |

## Left out

- File system access (`fs::metadata`, `File::open`, `read_to_string`, `read_dir`) is replaced by the `FileState` and `Listing` values that those calls would observe.
- The regex engine is a parameter `isMatch`; regex compilation and its errors happen outside this core.
- Parallel execution is modelled as its result: an ordered map over the entries followed by writing the buffers in order. Thread scheduling is not modelled.
- The `eprintln!` message for an entry that fails in the parallel branch goes to standard error, which is not modelled. Only the fact that the failure is dropped is modelled.
- Failures of the writer itself (`write_all`, `write!`) are not modelled: the `Sink` always accepts.
- Search.SearchLargeFile: a read or decoding error partway through a large file (`line_result?`) is not modelled. The streamed lines are given in full.
- Search.SearchFile: the 50 MiB threshold is compared with the content's length in characters, not its size in bytes.
- Search.SearchFile: `read_to_string` rejecting invalid UTF-8 is folded into `Unreadable`.
- Search.ReportedCount: the count is an unbounded natural number; the source's integer width is not modelled.
- Whether a path is a directory (`is_dir`) is given by the `Entry` constructor. Symbolic links and other special files are not modelled.
- The command line parsing, `main`, the helpers outside `src/search.rs`, the tests and the benchmark are not part of this model.
