/** `exportResults(results, format, query)` (src/utils/exportUtils.js): picks
    the content, file name and MIME type for the format, hands them to the
    download helper and returns the file name and the content's length.

    The clock is passed in twice: `isoNow` as `new Date().toISOString()`
    gives it (the date is the part before the first `T`) and `localNow` as
    the Markdown document prints it. The JSON text is passed in as `json`. */
module Export {
  import opened Wrappers
  import opened Seqs
  import opened Text
  import opened UseCases
  import Markdown
  import Csv

  const FilePrefix := "copilot-use-cases-"

  /** The file handed to the download helper, and the returned `size`. */
  datatype Exported = Exported(content: string, filename: string, mimeType: string, size: nat)

  /** `new Date().toISOString().split('T')[0]`. */
  function DatePart(isoNow: string): (date: string)
    ensures 'T' !in date
    ensures date <= isoNow
  {
    var parts := Split(isoNow, 'T');
    JoinFirstPart(parts, "T");
    parts[0]
  }

  /** A supported format name. */
  predicate Supported(format: string) {
    format == "markdown" || format == "json" || format == "csv"
  }

  /** The extension of a supported format's file. */
  function Extension(format: string): (ext: string)
    requires Supported(format)
    ensures |ext| >= 3 && ext[0] == '.'
  {
    if format == "markdown" then ".md" else if format == "json" then ".json" else ".csv"
  }

  function MimeType(format: string): string
    requires Supported(format)
  {
    if format == "markdown" then "text/markdown" else if format == "json" then "application/json" else "text/csv"
  }

  /** The `switch (format)` and the returned `{ filename, size }`. */
  function ExportResults(results: seq<UseCase>, format: string, query: string,
                         isoNow: string, localNow: string, json: string): (r: Result<Exported, string>)
    ensures r.Failure? <==> !Supported(format)
    ensures r.Failure? ==> r.error == "Unsupported export format: " + format
    ensures r.Success? ==> r.value.size == |r.value.content|
    ensures r.Success? ==> r.value.filename == FilePrefix + DatePart(isoNow) + Extension(format)
    ensures r.Success? ==> r.value.mimeType == MimeType(format)
  {
    if !Supported(format) then Failure("Unsupported export format: " + format)
    else
      var content :=
        if format == "markdown" then Markdown.ExportMarkdown(results, query, localNow)
        else if format == "json" then json
        else Csv.ExportCsv(results);
      Success(Exported(content, FilePrefix + DatePart(isoNow) + Extension(format), MimeType(format), |content|))
  }

  /** The content is the export of the chosen format: a CSV export reads back
      as the cells of every result, and a Markdown export starts with its
      title. */
  lemma ExportedContent(results: seq<UseCase>, format: string, query: string,
                        isoNow: string, localNow: string, json: string)
    requires Supported(format)
    ensures var c := ExportResults(results, format, query, isoNow, localNow, json).value.content;
      && (format == "json" ==> c == json)
      && (format == "markdown" ==> Markdown.Title <= c)
      && (format == "csv" && results != [] ==>
            c == Csv.HeaderLine + "\n" + Csv.CsvBody(results)
            && Csv.ReadRows(Csv.CsvBody(results)) == Some(Map(results, Csv.Cells)))
      && (format == "csv" && results == [] ==> c == Csv.HeaderLine)
  {
    Markdown.StartsWithTitle(results, query, localNow);
    Csv.ExportCsvRoundTrip(results);
  }

  /** Two supported formats give different file names for the same date. */
  lemma FilenamesDiffer(f1: string, f2: string, isoNow: string)
    requires Supported(f1) && Supported(f2) && f1 != f2
    ensures FilePrefix + DatePart(isoNow) + Extension(f1) != FilePrefix + DatePart(isoNow) + Extension(f2)
  {
    var p := FilePrefix + DatePart(isoNow);
    assert (p + Extension(f1))[|p|..] == Extension(f1);
    assert (p + Extension(f2))[|p|..] == Extension(f2);
  }
}
