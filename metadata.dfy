/**
 * `formattedMetadata`: the LNURL-style metadata list, a JSON array of
 * `[type, content]` pairs, turned into description rows. Parsing the JSON
 * is not modelled: its outcome is an input, `None` standing for every input
 * on which the parse or the mapping throws.
 */
module Metadata {
  import opened Common

  datatype MetadataEntry = MetadataEntry(mimeType: string, content: string)

  /** How the content is shown: as plain text, or inside a paragraph element. */
  datatype Shown = PlainText(text: string) | Paragraph(text: string)

  datatype MetadataRow = MetadataRow(term: string, shown: Shown)

  /** The map callback: a row for the two description types, `undefined` for anything else. */
  function FormatEntry(e: MetadataEntry): (r: Option<MetadataRow>)
    ensures r.Some? <==> e.mimeType == "text/plain" || e.mimeType == "text/long-desc"
    ensures e.mimeType == "text/plain" ==> r == Some(MetadataRow("Description", PlainText(e.content)))
    ensures e.mimeType == "text/long-desc" ==> r == Some(MetadataRow("Full Description", Paragraph(e.content)))
  {
    if e.mimeType == "text/plain" then Some(MetadataRow("Description", PlainText(e.content)))
    else if e.mimeType == "text/long-desc" then Some(MetadataRow("Full Description", Paragraph(e.content)))
    else None
  }

  predicate IsDescriptionType(mimeType: string)
  {
    mimeType == "text/plain" || mimeType == "text/long-desc"
  }

  /** Number of entries of a description type. */
  function CountDescriptions(entries: seq<MetadataEntry>): nat
  {
    if entries == [] then 0
    else (if IsDescriptionType(entries[0].mimeType) then 1 else 0) + CountDescriptions(entries[1..])
  }

  /** `metadata.map(...).filter(Boolean)`: the rows of the kept entries, in input order. */
  function FormatEntries(entries: seq<MetadataEntry>): (rows: seq<MetadataRow>)
    ensures |rows| == CountDescriptions(entries) <= |entries|
    ensures forall i :: 0 <= i < |rows| ==> rows[i].term in {"Description", "Full Description"}
  {
    if entries == [] then []
    else
      var first := match FormatEntry(entries[0]) case Some(row) => [row] case None => [];
      first + FormatEntries(entries[1..])
  }

  /** The whole function: the formatted rows, or `[]` when the input could not be read. */
  function FormattedMetadata(parsed: Option<seq<MetadataEntry>>): (rows: seq<MetadataRow>)
    ensures parsed.None? ==> rows == []
    ensures parsed.Some? ==> |rows| == CountDescriptions(parsed.value) <= |parsed.value|
  {
    match parsed
    case Some(entries) => FormatEntries(entries)
    case None => []
  }

  /** Formatting works entry by entry: a list split in two formats as its halves, in the same order. */
  lemma {:induction false} FormatEntriesAppend(a: seq<MetadataEntry>, b: seq<MetadataEntry>)
    ensures FormatEntries(a + b) == FormatEntries(a) + FormatEntries(b)
    decreases |a|
  {
    if a == [] {
      assert a + b == b;
    } else {
      assert (a + b)[0] == a[0] && (a + b)[1..] == a[1..] + b;
      FormatEntriesAppend(a[1..], b);
    }
  }

  /** Entries of any other type contribute nothing. */
  lemma {:induction false} OtherTypesDropped(entries: seq<MetadataEntry>)
    requires forall i :: 0 <= i < |entries| ==> !IsDescriptionType(entries[i].mimeType)
    ensures FormatEntries(entries) == []
    decreases |entries|
  {
    if entries != [] {
      OtherTypesDropped(entries[1..]);
    }
  }
}
