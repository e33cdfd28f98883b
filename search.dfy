/** The per-file search of `src/search.rs`: which lines are selected, how a
    selected line is laid out, what the count / files-with-matches /
    files-without-match modes print, and the two ways of reading a file (all
    at once, or line by line for very large files), both proved to write the
    same text. */
module Search {
  import opened Strings
  import opened Output

  /** The seven switches of one search; nothing else configures it. */
  datatype SearchConfig = SearchConfig(
    invertMatch: bool,
    lineNumber: bool,
    withFilename: bool,
    noFilename: bool,
    count: bool,
    filesWithMatches: bool,
    filesWithoutMatch: bool)

  /** The compiled regex, reduced to its `is_match` test on one line. */
  type Matcher = string -> bool

  /** What the file system reports for a path that is not a directory. */
  datatype FileState =
    | Missing                    // `fs::metadata` fails
    | Unreadable(size: nat)      // metadata gives `size`; opening or reading fails
    | Readable(content: string)  // the whole file, decoded as text

  /** The text one call wrote to its writer, and whether it returned `Ok`. */
  datatype Written = Written(text: string, ok: bool)

  /** Files larger than this many bytes are read line by line. */
  const LargeFileThreshold: nat := 50 * 1024 * 1024

  // ------------------------------------------------------------ selection

  /** A line is selected when the regex matching it differs from `invertMatch`. */
  predicate Selected(isMatch: Matcher, cfg: SearchConfig, line: string) {
    isMatch(line) != cfg.invertMatch
  }

  /** The path prefixes a record unless `noFilename` is set. */
  predicate ShowFilename(cfg: SearchConfig) {
    cfg.withFilename && !cfg.noFilename
  }

  /** One of the modes that write a single final record instead of lines. */
  predicate SummaryMode(cfg: SearchConfig) {
    cfg.count || cfg.filesWithMatches || cfg.filesWithoutMatch
  }

  /** How many of the first `n` lines are selected. */
  function SelectedCount(isMatch: Matcher, cfg: SearchConfig, lines: seq<string>, n: nat): (c: nat)
    requires n <= |lines|
    ensures c <= n
    ensures c == 0 <==> forall i :: 0 <= i < n ==> !Selected(isMatch, cfg, lines[i])
  {
    if n == 0 then 0
    else SelectedCount(isMatch, cfg, lines, n - 1) + (if Selected(isMatch, cfg, lines[n - 1]) then 1 else 0)
  }

  /** The positions of the selected lines among the first `n`, in increasing order. */
  function SelectedIndices(isMatch: Matcher, cfg: SearchConfig, lines: seq<string>, n: nat): (ix: seq<nat>)
    requires n <= |lines|
    ensures |ix| == SelectedCount(isMatch, cfg, lines, n)
    ensures forall k :: 0 <= k < |ix| ==> ix[k] < n
  {
    if n == 0 then []
    else
      SelectedIndices(isMatch, cfg, lines, n - 1)
      + (if Selected(isMatch, cfg, lines[n - 1]) then [n - 1] else [])
  }

  /** Every listed index is a selected line. */
  lemma {:induction false} SelectedIndicesSelected(isMatch: Matcher, cfg: SearchConfig, lines: seq<string>, n: nat, k: nat)
    requires n <= |lines|
    requires k < |SelectedIndices(isMatch, cfg, lines, n)|
    ensures Selected(isMatch, cfg, lines[SelectedIndices(isMatch, cfg, lines, n)[k]])
  {
    var before := SelectedIndices(isMatch, cfg, lines, n - 1);
    if k < |before| {
      SelectedIndicesSelected(isMatch, cfg, lines, n - 1, k);
    }
  }

  /** Every selected line among the first `n` is listed. */
  lemma {:induction false} SelectedIndicesComplete(isMatch: Matcher, cfg: SearchConfig, lines: seq<string>, n: nat, i: nat)
    requires i < n <= |lines|
    requires Selected(isMatch, cfg, lines[i])
    ensures i in SelectedIndices(isMatch, cfg, lines, n)
  {
    if i < n - 1 {
      SelectedIndicesComplete(isMatch, cfg, lines, n - 1, i);
    }
  }

  /** The listed indices increase strictly, so no line is listed twice. */
  lemma {:induction false} SelectedIndicesIncreasing(isMatch: Matcher, cfg: SearchConfig, lines: seq<string>, n: nat, k: nat, m: nat)
    requires n <= |lines|
    requires k < m < |SelectedIndices(isMatch, cfg, lines, n)|
    ensures SelectedIndices(isMatch, cfg, lines, n)[k] < SelectedIndices(isMatch, cfg, lines, n)[m]
  {
    var before := SelectedIndices(isMatch, cfg, lines, n - 1);
    if m < |before| {
      SelectedIndicesIncreasing(isMatch, cfg, lines, n - 1, k, m);
    }
  }

  /** Counting with the opposite `invertMatch` counts exactly the other lines. */
  lemma {:induction false} InvertedCountsComplement(isMatch: Matcher, cfg: SearchConfig, lines: seq<string>, n: nat)
    requires n <= |lines|
    ensures SelectedCount(isMatch, cfg, lines, n)
            + SelectedCount(isMatch, cfg.(invertMatch := !cfg.invertMatch), lines, n) == n
  {
    if n > 0 {
      InvertedCountsComplement(isMatch, cfg, lines, n - 1);
    }
  }

  lemma {:induction false} SelectedCountMonotone(isMatch: Matcher, cfg: SearchConfig, lines: seq<string>, n: nat, m: nat)
    requires n <= m <= |lines|
    ensures SelectedCount(isMatch, cfg, lines, n) <= SelectedCount(isMatch, cfg, lines, m)
    decreases m - n
  {
    if n < m {
      SelectedCountMonotone(isMatch, cfg, lines, n, m - 1);
    }
  }

  // --------------------------------------------------------------- layout

  /** The record of the selected line at 0-based `index`: the path and `:`
      when shown, the 1-based line number and `:` when numbered, the line,
      and a newline. */
  function Record(cfg: SearchConfig, path: string, index: nat, line: string): string {
    (if ShowFilename(cfg) then path + ":" else [])
    + (if cfg.lineNumber then Decimal(index + 1) + ":" else [])
    + line + "\n"
  }

  function StripPrefix(prefix: string, s: string): Option<string> {
    if |prefix| <= |s| && s[..|prefix|] == prefix then Some(s[|prefix|..]) else None
  }

  /** A leading run of digits ended by `:`: its value and what follows the `:`. */
  function ParseNumberField(s: string): Option<(nat, string)> {
    var k := IndexOf(s, ':');
    if 0 < k < |s| && forall i :: 0 <= i < k ==> IsDigit(s[i]) then
      Some((ParseDecimal(s[..k]), s[k + 1..]))
    else None
  }

  /** A line ended by the record's newline. */
  function ParseLine(s: string): Option<string> {
    if |s| > 0 && s[|s| - 1] == '\n' then Some(s[..|s| - 1]) else None
  }

  /** Reads a record back: its line number (when `lineNumber` is set) and its line. */
  function ParseRecord(cfg: SearchConfig, path: string, r: string): Option<(Option<nat>, string)> {
    var afterPath := if ShowFilename(cfg) then StripPrefix(path + ":", r) else Some(r);
    if afterPath.None? then None
    else if !cfg.lineNumber then
      (match ParseLine(afterPath.value)
       case None => None
       case Some(line) => Some((None, line)))
    else
      match ParseNumberField(afterPath.value)
      case None => None
      case Some((number, rest)) =>
        match ParseLine(rest)
        case None => None
        case Some(line) => Some((Some(number), line))
  }

  lemma ParseLineOf(line: string)
    ensures ParseLine(line + "\n") == Some(line)
  {
    assert (line + "\n")[..|line|] == line;
  }

  lemma ParseNumberFieldOf(n: nat, rest: string)
    ensures ParseNumberField(Decimal(n) + ":" + rest) == Some((n, rest))
  {
    var d := Decimal(n);
    var s := d + ":" + rest;
    DecimalHasNo(n, ':');
    IndexOfAfterPrefix(d, ':', rest);
    assert s[..|d|] == d;
    assert s[|d| + 1..] == rest;
    ParseDecimalOfDecimal(n);
  }

  lemma StripPrefixOf(prefix: string, rest: string)
    ensures StripPrefix(prefix, prefix + rest) == Some(rest)
  {
    assert (prefix + rest)[..|prefix|] == prefix;
    assert (prefix + rest)[|prefix|..] == rest;
  }

  /** A record carries its line and 1-based number recoverably, whatever the
      line and the path contain. */
  lemma ParseRecordOfRecord(cfg: SearchConfig, path: string, index: nat, line: string)
    ensures ParseRecord(cfg, path, Record(cfg, path, index, line))
            == Some((if cfg.lineNumber then Some(index + 1) else None, line))
  {
    var number := if cfg.lineNumber then Decimal(index + 1) + ":" else [];
    var afterPath := number + line + "\n";
    if ShowFilename(cfg) {
      assert Record(cfg, path, index, line) == (path + ":") + afterPath;
      StripPrefixOf(path + ":", afterPath);
    } else {
      assert Record(cfg, path, index, line) == afterPath;
    }
    ParseLineOf(line);
    if cfg.lineNumber {
      assert afterPath == Decimal(index + 1) + ":" + (line + "\n");
      ParseNumberFieldOf(index + 1, line + "\n");
      assert ParseNumberField(afterPath) == Some((index + 1, line + "\n"));
    } else {
      assert afterPath == line + "\n";
    }
  }

  /** The records of the first `n` lines, in line order. */
  function Emitted(isMatch: Matcher, cfg: SearchConfig, path: string, lines: seq<string>, n: nat): string
    requires n <= |lines|
  {
    if n == 0 then []
    else
      Emitted(isMatch, cfg, path, lines, n - 1)
      + (if Selected(isMatch, cfg, lines[n - 1]) then Record(cfg, path, n - 1, lines[n - 1]) else [])
  }

  /** The records of the lines at positions `ix`, in that order. */
  function RecordsAt(cfg: SearchConfig, path: string, lines: seq<string>, ix: seq<nat>): (rs: seq<string>)
    requires forall k :: 0 <= k < |ix| ==> ix[k] < |lines|
    ensures |rs| == |ix|
  {
    seq(|ix|, k requires 0 <= k < |ix| => Record(cfg, path, ix[k], lines[ix[k]]))
  }

  /** What the line loop writes is one record per selected line, in line
      order, and nothing for the other lines. */
  lemma {:induction false} EmittedIsSelectedRecords(isMatch: Matcher, cfg: SearchConfig, path: string, lines: seq<string>, n: nat)
    requires n <= |lines|
    ensures Emitted(isMatch, cfg, path, lines, n)
            == Concat(RecordsAt(cfg, path, lines, SelectedIndices(isMatch, cfg, lines, n)))
  {
    if n > 0 {
      EmittedIsSelectedRecords(isMatch, cfg, path, lines, n - 1);
      var before := SelectedIndices(isMatch, cfg, lines, n - 1);
      var ix := SelectedIndices(isMatch, cfg, lines, n);
      var rs := RecordsAt(cfg, path, lines, ix);
      if Selected(isMatch, cfg, lines[n - 1]) {
        var r := Record(cfg, path, n - 1, lines[n - 1]);
        assert ix == before + [n - 1];
        assert rs == RecordsAt(cfg, path, lines, before) + [r];
        ConcatSnoc(RecordsAt(cfg, path, lines, before), r);
      } else {
        assert ix == before;
      }
    }
  }

  /** The number of records is independent of the path when it is not shown. */
  lemma {:induction false} EmittedIgnoresPath(isMatch: Matcher, cfg: SearchConfig, p1: string, p2: string, lines: seq<string>, n: nat)
    requires !ShowFilename(cfg)
    requires n <= |lines|
    ensures Emitted(isMatch, cfg, p1, lines, n) == Emitted(isMatch, cfg, p2, lines, n)
  {
    if n > 0 {
      EmittedIgnoresPath(isMatch, cfg, p1, p2, lines, n - 1);
    }
  }

  // ------------------------------------------------------------- summary

  /** The number a count record reports: every selected line, or at most
      one when the files-with-matches scan stops at the first. */
  function ReportedCount(isMatch: Matcher, cfg: SearchConfig, lines: seq<string>): (n: nat)
    ensures n <= |lines|
    ensures cfg.filesWithMatches ==> n <= 1
    ensures n == 0 <==> forall i :: 0 <= i < |lines| ==> !Selected(isMatch, cfg, lines[i])
  {
    var c := SelectedCount(isMatch, cfg, lines, |lines|);
    if cfg.filesWithMatches && c > 0 then 1 else c
  }

  /** The final record: count first, then files-with-matches, then
      files-without-match; nothing when none of them is set. */
  function Summary(cfg: SearchConfig, path: string, count: nat, hasMatch: bool): string {
    if cfg.count then (if ShowFilename(cfg) then path + ":" else []) + Decimal(count) + "\n"
    else if cfg.filesWithMatches && hasMatch then path + "\n"
    else if cfg.filesWithoutMatch && !hasMatch then path + "\n"
    else []
  }

  /** Everything a search of a non-empty file with these lines writes. */
  function FileOutput(isMatch: Matcher, cfg: SearchConfig, path: string, lines: seq<string>): string {
    (if SummaryMode(cfg) then [] else Emitted(isMatch, cfg, path, lines, |lines|))
    + Summary(cfg, path, ReportedCount(isMatch, cfg, lines), SelectedCount(isMatch, cfg, lines, |lines|) > 0)
  }

  lemma FileOutputSplit(isMatch: Matcher, cfg: SearchConfig, path: string, lines: seq<string>, count: nat, hasMatch: bool)
    requires count == ReportedCount(isMatch, cfg, lines)
    requires hasMatch == (SelectedCount(isMatch, cfg, lines, |lines|) > 0)
    ensures FileOutput(isMatch, cfg, path, lines)
            == (if SummaryMode(cfg) then [] else Emitted(isMatch, cfg, path, lines, |lines|)) + Summary(cfg, path, count, hasMatch)
  {
  }

  /** What `search_file` writes for a path, and whether it returns `Ok`. */
  function SearchResult(isMatch: Matcher, cfg: SearchConfig, path: string, state: FileState): Written {
    match state
    case Missing => Written([], false)
    case Unreadable(size) => Written([], size == 0)
    case Readable(content) =>
      if |content| == 0 then Written([], true)
      else Written(FileOutput(isMatch, cfg, path, Lines(content)), true)
  }

  /** Reads a count record back: the path prefix when shown, then the number. */
  function ParseCountRecord(cfg: SearchConfig, path: string, r: string): Option<nat> {
    var afterPath := if ShowFilename(cfg) then StripPrefix(path + ":", r) else Some(r);
    if afterPath.None? then None
    else
      match ParseLine(afterPath.value)
      case None => None
      case Some(digits) =>
        if |digits| > 0 && forall i :: 0 <= i < |digits| ==> IsDigit(digits[i])
        then Some(ParseDecimal(digits))
        else None
  }

  // ---------------------------------------------------------- mode lemmas

  /** Without a summary mode the output is the selected lines' records, one each, in order. */
  lemma FullModeOutput(isMatch: Matcher, cfg: SearchConfig, path: string, lines: seq<string>)
    requires !SummaryMode(cfg)
    ensures FileOutput(isMatch, cfg, path, lines)
            == Concat(RecordsAt(cfg, path, lines, SelectedIndices(isMatch, cfg, lines, |lines|)))
    ensures |SelectedIndices(isMatch, cfg, lines, |lines|)| == SelectedCount(isMatch, cfg, lines, |lines|)
  {
    EmittedIsSelectedRecords(isMatch, cfg, path, lines, |lines|);
  }

  lemma ParseCountRecordOf(cfg: SearchConfig, path: string, n: nat)
    ensures ParseCountRecord(cfg, path, (if ShowFilename(cfg) then path + ":" else []) + Decimal(n) + "\n") == Some(n)
  {
    var d := Decimal(n);
    var r := (if ShowFilename(cfg) then path + ":" else []) + d + "\n";
    var afterPath := if ShowFilename(cfg) then StripPrefix(path + ":", r) else Some(r);
    if ShowFilename(cfg) {
      assert r == (path + ":") + (d + "\n");
      StripPrefixOf(path + ":", d + "\n");
    } else {
      assert r == d + "\n";
    }
    assert afterPath == Some(d + "\n");
    ParseLineOf(d);
    assert ParseLine(afterPath.value) == Some(d);
    ParseDecimalOfDecimal(n);
  }

  /** In count mode the whole output is one count record, and its number is
      the count of selected lines, or 0/1 when files-with-matches is also set. */
  lemma CountModeOutput(isMatch: Matcher, cfg: SearchConfig, path: string, lines: seq<string>)
    requires cfg.count
    ensures var total := SelectedCount(isMatch, cfg, lines, |lines|);
            ParseCountRecord(cfg, path, FileOutput(isMatch, cfg, path, lines))
            == Some(if cfg.filesWithMatches then (if total > 0 then 1 else 0) else total)
  {
    var n := ReportedCount(isMatch, cfg, lines);
    assert FileOutput(isMatch, cfg, path, lines)
           == (if ShowFilename(cfg) then path + ":" else []) + Decimal(n) + "\n";
    ParseCountRecordOf(cfg, path, n);
  }

  /** With files-with-matches (and no count) the path is written once when
      some line is selected; otherwise only files-without-match writes it. */
  lemma FilesWithMatchesOutput(isMatch: Matcher, cfg: SearchConfig, path: string, lines: seq<string>)
    requires cfg.filesWithMatches && !cfg.count
    ensures FileOutput(isMatch, cfg, path, lines)
            == if exists i :: 0 <= i < |lines| && Selected(isMatch, cfg, lines[i]) then path + "\n"
               else if cfg.filesWithoutMatch then path + "\n"
               else []
  {
    var c := SelectedCount(isMatch, cfg, lines, |lines|);
    if exists i :: 0 <= i < |lines| && Selected(isMatch, cfg, lines[i]) {
      assert c > 0;
      assert ReportedCount(isMatch, cfg, lines) == 1;
    } else {
      assert c == 0;
    }
  }

  /** Under files-with-matches the output is fixed by the lines up to the
      first selected one, so stopping the scan there loses nothing. */
  lemma {:induction false} FilesWithMatchesStopsEarly(isMatch: Matcher, cfg: SearchConfig, path: string, lines: seq<string>, k: nat)
    requires cfg.filesWithMatches
    requires k < |lines| && Selected(isMatch, cfg, lines[k])
    requires forall i :: 0 <= i < k ==> !Selected(isMatch, cfg, lines[i])
    ensures FileOutput(isMatch, cfg, path, lines) == FileOutput(isMatch, cfg, path, lines[..k + 1])
  {
    var prefix := lines[..k + 1];
    SelectedCountMonotone(isMatch, cfg, lines, k + 1, |lines|);
    assert SelectedCount(isMatch, cfg, prefix, |prefix|) > 0 by {
      assert Selected(isMatch, cfg, prefix[k]);
    }
  }

  /** With files-without-match alone a readable file is listed exactly when
      it is non-empty and none of its lines is selected. */
  lemma FilesWithoutMatchListing(isMatch: Matcher, cfg: SearchConfig, path: string, content: string)
    requires cfg.filesWithoutMatch && !cfg.filesWithMatches && !cfg.count
    ensures var lines := Lines(content);
            SearchResult(isMatch, cfg, path, Readable(content)).text
            == if content != [] && forall i :: 0 <= i < |lines| ==> !Selected(isMatch, cfg, lines[i])
               then path + "\n" else []
  {
  }

  /** A zero-length file writes nothing in any mode, not even a zero count
      or a files-without-match listing, although a one-line file would. */
  lemma EmptyFileWritesNothing(isMatch: Matcher, cfg: SearchConfig, path: string)
    ensures SearchResult(isMatch, cfg, path, Readable([])) == Written([], true)
    ensures SearchResult(isMatch, cfg, path, Unreadable(0)) == Written([], true)
    ensures cfg.count ==> SearchResult(isMatch, cfg, path, Readable("\n")).text != []
  {
    assert Lines("\n") == [""] by {
      LinesCons("", "");
    }
  }

  /** `noFilename` keeps the path out of per-line and count output: the
      output is the same whatever the path. */
  lemma PathHiddenByNoFilename(isMatch: Matcher, cfg: SearchConfig, p1: string, p2: string, lines: seq<string>)
    requires cfg.noFilename
    requires !cfg.filesWithMatches && !cfg.filesWithoutMatch
    ensures FileOutput(isMatch, cfg, p1, lines) == FileOutput(isMatch, cfg, p2, lines)
  {
    EmittedIgnoresPath(isMatch, cfg, p1, p2, lines, |lines|);
  }

  // -------------------------------------------------------------- methods

  /** The final block shared by both read strategies. */
  method WriteSummary(path: string, cfg: SearchConfig, count: nat, hasMatch: bool, sink: Sink)
    modifies sink
    ensures sink.data == old(sink.data) + Summary(cfg, path, count, hasMatch)
  {
    if cfg.count {
      if ShowFilename(cfg) {
        sink.Write(path + ":");
      }
      sink.Write(Decimal(count) + "\n");
    } else if cfg.filesWithMatches && hasMatch {
      sink.Write(path + "\n");
    } else if cfg.filesWithoutMatch && !hasMatch {
      sink.Write(path + "\n");
    }
  }

  /** `search_file`: looks the file up, skips it when empty, hands files
      over the threshold to the streaming search, and otherwise reads it
      whole and scans its lines. */
  method SearchFile(isMatch: Matcher, path: string, cfg: SearchConfig, state: FileState, sink: Sink)
    returns (ok: bool)
    modifies sink
    ensures sink.data == old(sink.data) + SearchResult(isMatch, cfg, path, state).text
    ensures ok == SearchResult(isMatch, cfg, path, state).ok
  {
    if state.Missing? {
      return false;
    }
    var fileSize := if state.Unreadable? then state.size else |state.content|;
    if fileSize == 0 {
      return true;
    }
    if state.Unreadable? {
      return false;
    }
    var lines := Lines(state.content);
    if fileSize > LargeFileThreshold {
      SearchLargeFile(isMatch, path, cfg, lines, sink);
      return true;
    }

    var count: nat, hasMatch: bool;
    if cfg.count || cfg.filesWithMatches || cfg.filesWithoutMatch {
      count, hasMatch := CountSelected(isMatch, cfg, lines);
    } else {
      count, hasMatch := WriteSelectedLines(isMatch, path, cfg, lines, sink);
    }
    WriteSummary(path, cfg, count, hasMatch, sink);
    ok := true;
  }

  /** The fast path of the in-memory search: counts the selected lines and
      stops at the first one under files-with-matches. */
  method CountSelected(isMatch: Matcher, cfg: SearchConfig, lines: seq<string>) returns (count: nat, hasMatch: bool)
    ensures count == ReportedCount(isMatch, cfg, lines)
    ensures hasMatch <==> exists i :: 0 <= i < |lines| && Selected(isMatch, cfg, lines[i])
  {
    count, hasMatch := 0, false;
    var i := 0;
    while i < |lines|
      invariant 0 <= i <= |lines|
      invariant count == SelectedCount(isMatch, cfg, lines, i)
      invariant hasMatch == (count > 0)
      invariant cfg.filesWithMatches ==> count == 0
    {
      if isMatch(lines[i]) != cfg.invertMatch {
        count := count + 1;
        hasMatch := true;
        if cfg.filesWithMatches {
          SelectedCountMonotone(isMatch, cfg, lines, i + 1, |lines|);
          return;
        }
      }
      i := i + 1;
    }
  }

  /** The full-output path of the in-memory search: builds each selected
      line's record in a buffer and writes it in one piece. */
  method WriteSelectedLines(isMatch: Matcher, path: string, cfg: SearchConfig, lines: seq<string>, sink: Sink)
    returns (count: nat, hasMatch: bool)
    modifies sink
    ensures sink.data == old(sink.data) + Emitted(isMatch, cfg, path, lines, |lines|)
    ensures count == SelectedCount(isMatch, cfg, lines, |lines|) && hasMatch == (count > 0)
  {
    count, hasMatch := 0, false;
    var showFilename := cfg.withFilename && !cfg.noFilename;
    var buffer: string;
    var i := 0;
    while i < |lines|
      invariant 0 <= i <= |lines|
      invariant count == SelectedCount(isMatch, cfg, lines, i)
      invariant hasMatch == (count > 0)
      invariant sink.data == old(sink.data) + Emitted(isMatch, cfg, path, lines, i)
    {
      EmittedNext(isMatch, cfg, path, lines, i);
      if isMatch(lines[i]) != cfg.invertMatch {
        count := count + 1;
        hasMatch := true;
        buffer := FillRecord(path, cfg, showFilename, i, lines[i]);
        AppendAssoc(old(sink.data), Emitted(isMatch, cfg, path, lines, i), buffer);
        sink.Write(buffer);
      }
      i := i + 1;
    }
  }

  /** Clears the output buffer and fills it with one selected line's record. */
  method FillRecord(path: string, cfg: SearchConfig, showFilename: bool, index: nat, line: string)
    returns (buffer: string)
    requires showFilename == ShowFilename(cfg)
    ensures buffer == Record(cfg, path, index, line)
  {
    buffer := [];
    if showFilename {
      buffer := buffer + path + ":";
    }
    if cfg.lineNumber {
      buffer := buffer + Decimal(index + 1) + ":";
    }
    buffer := buffer + line + "\n";
  }

  /** `search_large_file`: the same search, reading and writing one line at
      a time. It writes exactly what the in-memory scan writes. */
  method SearchLargeFile(isMatch: Matcher, path: string, cfg: SearchConfig, lines: seq<string>, sink: Sink)
    modifies sink
    ensures sink.data == old(sink.data) + FileOutput(isMatch, cfg, path, lines)
  {
    var count: nat := 0;
    var hasMatch := false;
    var showFilename := cfg.withFilename && !cfg.noFilename;

    var i := 0;
    while i < |lines|
      invariant 0 <= i <= |lines|
      invariant count == SelectedCount(isMatch, cfg, lines, i)
      invariant hasMatch == (count > 0)
      invariant cfg.filesWithMatches ==> count == 0
      invariant SummaryMode(cfg) ==> sink.data == old(sink.data)
      invariant !SummaryMode(cfg) ==> sink.data == old(sink.data) + Emitted(isMatch, cfg, path, lines, i)
    {
      var line := lines[i];
      ghost var before := sink.data;
      EmittedNext(isMatch, cfg, path, lines, i);
      if isMatch(line) != cfg.invertMatch {
        count := count + 1;
        hasMatch := true;
        if !cfg.count && !cfg.filesWithMatches && !cfg.filesWithoutMatch {
          AppendAssoc(old(sink.data), Emitted(isMatch, cfg, path, lines, i), Record(cfg, path, i, line));
          WriteRecord(path, cfg, showFilename, i, line, sink);
        } else if cfg.filesWithMatches {
          SelectedCountMonotone(isMatch, cfg, lines, i + 1, |lines|);
          assert count == ReportedCount(isMatch, cfg, lines);
          break;
        }
      }
      i := i + 1;
    }
    assert count == ReportedCount(isMatch, cfg, lines);
    assert hasMatch == (SelectedCount(isMatch, cfg, lines, |lines|) > 0);
    WriteSummary(path, cfg, count, hasMatch, sink);
    FileOutputSplit(isMatch, cfg, path, lines, count, hasMatch);
  }

  lemma EmittedNext(isMatch: Matcher, cfg: SearchConfig, path: string, lines: seq<string>, n: nat)
    requires n < |lines|
    ensures Selected(isMatch, cfg, lines[n]) ==>
              Emitted(isMatch, cfg, path, lines, n + 1) == Emitted(isMatch, cfg, path, lines, n) + Record(cfg, path, n, lines[n])
    ensures !Selected(isMatch, cfg, lines[n]) ==>
              Emitted(isMatch, cfg, path, lines, n + 1) == Emitted(isMatch, cfg, path, lines, n)
  {
  }

  /** The three writes that put one selected line's record on the writer
      in the streaming search. */
  method WriteRecord(path: string, cfg: SearchConfig, showFilename: bool, index: nat, line: string, sink: Sink)
    requires showFilename == ShowFilename(cfg)
    modifies sink
    ensures sink.data == old(sink.data) + Record(cfg, path, index, line)
  {
    if showFilename {
      sink.Write(path + ":");
    }
    if cfg.lineNumber {
      sink.Write(Decimal(index + 1) + ":");
    }
    sink.Write(line + "\n");
  }
}
