/** The directory walk of `visit_path`: a file is searched, a directory is
    reported when the walk is not recursive, and otherwise its entries are
    visited in listing order: in parallel, each into its own buffer, when
    there are more than ten of them, and one after another into the shared
    writer otherwise. */
module Walk {
  import opened Strings
  import opened Output
  import opened Search

  /** A path as the walk meets it. */
  datatype Entry =
    | File(path: string, state: FileState)  // `is_dir` is false: searched as a file
    | Dir(path: string, listing: Listing)

  /** What reading a directory gives: `read_dir` or one of its entries can fail. */
  datatype Listing = ListFailed | Listed(entries: seq<Entry>)

  /** Directories with more entries than this are searched in parallel. */
  const ParallelThreshold: nat := 10

  /** The line written for a directory met by a non-recursive search. */
  function DirectoryNotice(path: string): string {
    "greprs: " + path + ": Is a directory\n"
  }

  /** The texts of a sequence of results, in order. */
  function Texts(ws: seq<Written>): (ts: seq<string>)
    ensures |ts| == |ws|
  {
    seq(|ws|, i requires 0 <= i < |ws| => ws[i].text)
  }

  /** What `visit_path` writes for `e` and whether it returns `Ok`. */
  function Visit(isMatch: Matcher, cfg: SearchConfig, e: Entry, recursive: bool): Written
    decreases e, 1
  {
    match e
    case File(path, state) => SearchResult(isMatch, cfg, path, state)
    case Dir(path, listing) =>
      if !recursive then Written(DirectoryNotice(path), true)
      else
        match listing
        case ListFailed => Written([], false)
        case Listed(es) =>
          var ws := VisitEach(isMatch, cfg, es, recursive);
          if |es| > ParallelThreshold then Written(Concat(Texts(ws)), true)
          else Sequential(ws)
  }

  /** Each entry visited on its own, in listing order: what the parallel
      map collects, one buffer per entry. */
  function VisitEach(isMatch: Matcher, cfg: SearchConfig, es: seq<Entry>, recursive: bool): (ws: seq<Written>)
    ensures |ws| == |es|
    decreases es, 0
  {
    seq(|es|, i requires 0 <= i < |es| => Visit(isMatch, cfg, es[i], recursive))
  }

  /** The sequential branch: entries' output in order, and the first entry
      that fails ends the directory with that failure. */
  function Sequential(ws: seq<Written>): Written {
    if ws == [] then Written([], true)
    else if !ws[0].ok then ws[0]
    else
      var rest := Sequential(ws[1..]);
      Written(ws[0].text + rest.text, rest.ok)
  }

  // ------------------------------------------------------- branch lemmas

  lemma TextsCons(ws: seq<Written>)
    requires ws != []
    ensures Texts(ws) == [ws[0].text] + Texts(ws[1..])
  {
  }

  /** When no entry fails, the sequential branch writes exactly what the
      parallel branch writes: every entry's output, in listing order. */
  lemma {:induction false} SequentialWithoutErrors(ws: seq<Written>)
    requires forall i :: 0 <= i < |ws| ==> ws[i].ok
    ensures Sequential(ws) == Written(Concat(Texts(ws)), true)
  {
    if ws != [] {
      SequentialWithoutErrors(ws[1..]);
      TextsCons(ws);
      ConcatSplit([ws[0].text], Texts(ws[1..]));
      ConcatOne(ws[0].text);
    }
  }

  lemma TextsSplit(ws: seq<Written>, j: nat)
    requires j <= |ws|
    ensures Texts(ws) == Texts(ws[..j]) + Texts(ws[j..])
  {
  }

  /** The sequential branch stops at the first failing entry `k`, having
      written the output of entries `0` to `k`. */
  lemma {:induction false} SequentialUpToError(ws: seq<Written>, k: nat)
    requires k < |ws| && !ws[k].ok
    requires forall i :: 0 <= i < k ==> ws[i].ok
    ensures Sequential(ws) == Written(Concat(Texts(ws[..k + 1])), false)
  {
    if k == 0 {
      assert Texts(ws[..1]) == [ws[0].text];
      ConcatOne(ws[0].text);
    } else {
      SequentialUpToError(ws[1..], k - 1);
      assert ws[1..][..k] == ws[1..k + 1];
      TextsCons(ws[..k + 1]);
      assert ws[..k + 1][1..] == ws[1..k + 1];
      ConcatSplit([ws[0].text], Texts(ws[1..k + 1]));
      ConcatOne(ws[0].text);
    }
  }

  /** When entry `k` is the first to fail, the sequential branch writes the
      output up to and including entry `k` and fails; the parallel branch
      writes that and the output of every later entry as well, and succeeds. */
  lemma SequentialStopsAtFirstError(ws: seq<Written>, k: nat)
    requires k < |ws| && !ws[k].ok
    requires forall i :: 0 <= i < k ==> ws[i].ok
    ensures Sequential(ws) == Written(Concat(Texts(ws[..k + 1])), false)
    ensures Concat(Texts(ws)) == Sequential(ws).text + Concat(Texts(ws[k + 1..]))
  {
    SequentialUpToError(ws, k);
    TextsSplit(ws, k + 1);
    ConcatSplit(Texts(ws[..k + 1]), Texts(ws[k + 1..]));
  }

  /** A non-recursive search never reads a directory: it writes the notice,
      whatever the directory holds. */
  lemma NonRecursiveDirectory(isMatch: Matcher, cfg: SearchConfig, path: string, listing: Listing)
    ensures Visit(isMatch, cfg, Dir(path, listing), false) == Written(DirectoryNotice(path), true)
  {
  }

  // ----------------------------------------------------- whole-walk order

  /** An entry whose walk meets no error. */
  predicate Healthy(e: Entry) {
    match e
    case File(_, state) => state.Readable? || state == Unreadable(0)
    case Dir(_, listing) =>
      listing.Listed? && forall i :: 0 <= i < |listing.entries| ==> Healthy(listing.entries[i])
  }

  /** The files under `e`, depth first, in listing order. */
  function WalkFiles(e: Entry): (fs: seq<Entry>)
    decreases e, 1
  {
    match e
    case File(_, _) => [e]
    case Dir(_, ListFailed) => []
    case Dir(_, Listed(es)) => Concat(WalkFilesEach(es))
  }

  function WalkFilesEach(es: seq<Entry>): (fss: seq<seq<Entry>>)
    ensures |fss| == |es|
    decreases es, 0
  {
    seq(|es|, i requires 0 <= i < |es| => WalkFiles(es[i]))
  }

  /** The search output of a list of files, one after the other. */
  function FileTexts(isMatch: Matcher, cfg: SearchConfig, fs: seq<Entry>): string {
    if fs == [] then []
    else
      var last := fs[|fs| - 1];
      FileTexts(isMatch, cfg, fs[..|fs| - 1])
      + (if last.File? then SearchResult(isMatch, cfg, last.path, last.state).text else [])
  }

  lemma {:induction false} FileTextsSplit(isMatch: Matcher, cfg: SearchConfig, a: seq<Entry>, b: seq<Entry>)
    ensures FileTexts(isMatch, cfg, a + b) == FileTexts(isMatch, cfg, a) + FileTexts(isMatch, cfg, b)
    decreases |b|
  {
    if b == [] {
      assert a + b == a;
    } else {
      var n := |b| - 1;
      assert (a + b)[..|a + b| - 1] == a + b[..n];
      FileTextsSplit(isMatch, cfg, a, b[..n]);
    }
  }

  function FileTextsEach(isMatch: Matcher, cfg: SearchConfig, fss: seq<seq<Entry>>): (ts: seq<string>)
    ensures |ts| == |fss|
  {
    seq(|fss|, i requires 0 <= i < |fss| => FileTexts(isMatch, cfg, fss[i]))
  }

  lemma {:induction false} FileTextsConcat(isMatch: Matcher, cfg: SearchConfig, fss: seq<seq<Entry>>)
    ensures FileTexts(isMatch, cfg, Concat(fss)) == Concat(FileTextsEach(isMatch, cfg, fss))
  {
    if fss != [] {
      var n := |fss| - 1;
      FileTextsConcat(isMatch, cfg, fss[..n]);
      FileTextsSplit(isMatch, cfg, Concat(fss[..n]), fss[n]);
      assert FileTextsEach(isMatch, cfg, fss)[..n] == FileTextsEach(isMatch, cfg, fss[..n]);
    }
  }

  /** A recursive walk of a tree without errors succeeds and writes each
      file's search output in depth-first listing order, whichever branch
      each directory takes. */
  lemma {:induction false} WalkIsFileOrder(isMatch: Matcher, cfg: SearchConfig, e: Entry)
    requires Healthy(e)
    ensures Visit(isMatch, cfg, e, true) == Written(FileTexts(isMatch, cfg, WalkFiles(e)), true)
    decreases e
  {
    if e.File? {
      assert WalkFiles(e) == [e];
      assert [e][..0] == [];
    } else if e.listing.Listed? {
      var es := e.listing.entries;
      var ws := VisitEach(isMatch, cfg, es, true);
      var fss := WalkFilesEach(es);
      forall i | 0 <= i < |es|
        ensures ws[i] == Written(FileTexts(isMatch, cfg, fss[i]), true)
      {
        WalkIsFileOrder(isMatch, cfg, es[i]);
      }
      assert Texts(ws) == FileTextsEach(isMatch, cfg, fss);
      FileTextsConcat(isMatch, cfg, fss);
      if |es| <= ParallelThreshold {
        SequentialWithoutErrors(ws);
      }
    }
  }

  // -------------------------------------------------------------- method

  /** `visit_path`: what it writes to `sink` and whether it returns `Ok`. */
  method VisitPath(isMatch: Matcher, e: Entry, cfg: SearchConfig, recursive: bool, sink: Sink)
    returns (ok: bool)
    modifies sink
    ensures sink.data == old(sink.data) + Visit(isMatch, cfg, e, recursive).text
    ensures ok == Visit(isMatch, cfg, e, recursive).ok
    decreases e, 1
  {
    match e
    case File(path, state) =>
      ok := SearchFile(isMatch, path, cfg, state, sink);
    case Dir(path, listing) =>
      if !recursive {
        sink.Write(DirectoryNotice(path));
        return true;
      }
      if listing.ListFailed? {
        return false;
      }
      var entries := listing.entries;
      if |entries| > ParallelThreshold {
        var results := CollectBuffers(isMatch, entries, cfg, recursive);
        WriteBuffers(results, sink);
        ok := true;
      } else {
        ok := VisitSequential(isMatch, entries, cfg, recursive, sink);
      }
  }

  /** The parallel map of the branch for more than ten entries: each entry
      is searched into a fresh buffer of its own, and an entry's failure is
      reported without stopping its siblings. The buffers come back in
      listing order. */
  method CollectBuffers(isMatch: Matcher, entries: seq<Entry>, cfg: SearchConfig, recursive: bool)
    returns (results: seq<string>)
    ensures results == Texts(VisitEach(isMatch, cfg, entries, recursive))
    decreases entries, 0
  {
    ghost var ws := VisitEach(isMatch, cfg, entries, recursive);
    results := [];
    var i := 0;
    while i < |entries|
      invariant 0 <= i <= |entries|
      invariant results == Texts(ws)[..i]
    {
      var buffer := new Sink();
      var entryOk := VisitPath(isMatch, entries[i], cfg, recursive, buffer);
      assert buffer.data == ws[i].text;
      assert Texts(ws)[..i + 1] == Texts(ws)[..i] + [ws[i].text];
      results := results + [buffer.data];
      i := i + 1;
    }
  }

  /** Writes the collected buffers to the writer in order, skipping empty ones. */
  method WriteBuffers(results: seq<string>, sink: Sink)
    modifies sink
    ensures sink.data == old(sink.data) + Concat(results)
  {
    var i := 0;
    while i < |results|
      invariant 0 <= i <= |results|
      invariant sink.data == old(sink.data) + Concat(results[..i])
    {
      assert results[..i + 1] == results[..i] + [results[i]];
      ConcatSnoc(results[..i], results[i]);
      AppendAssoc(old(sink.data), Concat(results[..i]), results[i]);
      if results[i] != [] {
        sink.Write(results[i]);
      }
      i := i + 1;
    }
    assert results[..i] == results;
  }

  /** Appending entry `i`'s output extends the output of the entries before it. */
  lemma TextsNext(prefix: string, ws: seq<Written>, i: nat)
    requires i < |ws|
    ensures prefix + Concat(Texts(ws[..i])) + ws[i].text == prefix + Concat(Texts(ws[..i + 1]))
  {
    assert Texts(ws[..i + 1]) == Texts(ws[..i]) + [ws[i].text];
    ConcatSnoc(Texts(ws[..i]), ws[i].text);
    AppendAssoc(prefix, Concat(Texts(ws[..i])), ws[i].text);
  }

  /** The branch for at most ten entries: one entry after another into the
      shared writer, and the first failure ends the directory. */
  method VisitSequential(isMatch: Matcher, entries: seq<Entry>, cfg: SearchConfig, recursive: bool, sink: Sink)
    returns (ok: bool)
    modifies sink
    ensures sink.data == old(sink.data) + Sequential(VisitEach(isMatch, cfg, entries, recursive)).text
    ensures ok == Sequential(VisitEach(isMatch, cfg, entries, recursive)).ok
    decreases entries, 0
  {
    ghost var ws := VisitEach(isMatch, cfg, entries, recursive);
    var i := 0;
    while i < |entries|
      invariant 0 <= i <= |entries|
      invariant forall j :: 0 <= j < i ==> ws[j].ok
      invariant sink.data == old(sink.data) + Concat(Texts(ws[..i]))
    {
      TextsNext(old(sink.data), ws, i);
      var entryOk := VisitPath(isMatch, entries[i], cfg, recursive, sink);
      if !entryOk {
        SequentialStopsAtFirstError(ws, i);
        return false;
      }
      i := i + 1;
    }
    assert ws[..i] == ws;
    SequentialWithoutErrors(ws);
    ok := true;
  }
}
