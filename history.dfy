/** The Run History Store of server.js: `/api/test/results`
    (server.js:104-129) discovers the per-run summary files in the images
    directory, skips the ones that cannot be read or parsed and lists the rest
    newest first. */
module History {
  import opened Base
  import opened Text
  import opened Lists
  import Gallery

  /** The fields of a run summary that the dashboard reads; `timestamp` is the
      summary's date as milliseconds since the epoch. */
  datatype Summary = Summary(
    testRunId: string, video: string, sport: string, timestamp: int,
    shots: nat, framesProcessed: Option<int>)

  /** One directory file as the handler sees it: its name, and the parsed
      summary, or None when reading or JSON.parse throws. */
  datatype SummaryFile = SummaryFile(name: string, parsed: Option<Summary>)

  function Timestamp(s: Summary): int { s.timestamp }

  /** The naming convention of server.js:111. */
  predicate IsSummaryFile(f: SummaryFile) { Contains(f.name, "_summary.json") }

  /** The summaries that parse, in directory order. */
  function Parsed(files: seq<SummaryFile>): seq<Summary>
  {
    if files == [] then []
    else
      var last := files[|files| - 1];
      Parsed(files[..|files| - 1]) + (if last.parsed.Some? then [last.parsed.value] else [])
  }

  /** A summary is in Parsed exactly when one of the files parses to it. */
  lemma {:induction false} ParsedMembers(files: seq<SummaryFile>, s: Summary)
    ensures s in Parsed(files) <==> exists f :: f in files && f.parsed == Some(s)
  {
    if files != [] {
      var init := files[..|files| - 1];
      var last := files[|files| - 1];
      ParsedMembers(init, s);
      assert files == init + [last];
      if exists f :: f in files && f.parsed == Some(s) {
        var f :| f in files && f.parsed == Some(s);
        if f != last {
          assert f in init;
        }
      }
    }
  }

  /** The loop of server.js:112-122: each summary file is read and parsed in
      turn; a file that throws is skipped and the loop goes on. */
  method Collect(summaryFiles: seq<SummaryFile>) returns (results: seq<Summary>)
    ensures results == Parsed(summaryFiles)
    ensures |results| <= |summaryFiles|
  {
    results := [];
    for i := 0 to |summaryFiles|
      invariant results == Parsed(summaryFiles[..i])
      invariant |results| <= i
    {
      assert summaryFiles[..i + 1][..i] == summaryFiles[..i];
      match summaryFiles[i].parsed {
        case Some(summary) => results := results + [summary];
        case None =>
      }
    }
    assert summaryFiles[..|summaryFiles|] == summaryFiles;
  }

  /** The reply of `/api/test/results`. */
  datatype ResultsReply = Results(results: seq<Summary>) | ResultsError(status: int, error: string)

  /** The results in reply order: parsed summaries of summary-named files,
      newest first (server.js:111-125). */
  function Runs(files: seq<SummaryFile>): seq<Summary>
  {
    SortDesc(Parsed(Filter(files, IsSummaryFile)), Timestamp)
  }

  /** GET /api/test/results (server.js:104-129). */
  method ListResults(listing: Gallery.Listing<SummaryFile>) returns (reply: ResultsReply)
    ensures listing.Unreadable? ==> reply == ResultsError(500, "Could not read images directory")
    ensures listing.Listed? ==> reply == Results(Runs(listing.files))
  {
    match listing {
      case Unreadable =>
        reply := ResultsError(500, "Could not read images directory");
      case Listed(files) =>
        var summaryFiles := Filter(files, IsSummaryFile);
        var results := Collect(summaryFiles);
        reply := Results(SortDesc(results, Timestamp));
    }
  }

  /** A run is listed exactly when some summary-named file parses to it;
      unparseable files are dropped without failing the listing; the list is
      newest first and holds each parsed summary as often as files parse to it. */
  lemma RunsAreParsedSummaries(files: seq<SummaryFile>, s: Summary)
    ensures s in Runs(files) <==> exists f :: f in files && IsSummaryFile(f) && f.parsed == Some(s)
    ensures SortedDesc(Runs(files), Timestamp)
    ensures multiset(Runs(files)) == multiset(Parsed(Filter(files, IsSummaryFile)))
  {
    var kept := Filter(files, IsSummaryFile);
    assert s in Runs(files) <==> s in multiset(Runs(files));
    assert s in Parsed(kept) <==> s in multiset(Parsed(kept));
    ParsedMembers(kept, s);
  }
}
