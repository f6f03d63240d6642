/** The rows `save_to_csv` writes: a header, then one row per entry of the
    external-link dict, in the dict's order. The CSV encoding itself and the
    file are not modelled. */
module Export {
  import opened Urls
  import opened Ledgers

  type Row = seq<string>

  const Header: Row := ["External Link", "Source Page"]

  /** The row of one dict item: `[link, source]`. */
  function EntryRow(e: Entry): Row
  {
    [Text(e.link), Text(e.source)]
  }

  function EntryRows(l: Ledger): (rows: seq<Row>)
    ensures |rows| == |l|
    ensures forall i :: 0 <= i < |l| ==> rows[i] == EntryRow(l[i])
  {
    if l == [] then [] else EntryRows(l[..|l| - 1]) + [EntryRow(l[|l| - 1])]
  }

  /** Everything written to the CSV file, row by row. */
  function Rows(l: Ledger): (rows: seq<Row>)
    ensures |rows| == |l| + 1 && rows[0] == Header
    ensures forall i :: 0 <= i < |l| ==> rows[i + 1] == EntryRow(l[i])
  {
    [Header] + EntryRows(l)
  }

  /** `save_to_csv(external_links, output_file)`: writes the header, then
      loops over `external_links.items()`; the result is the rows written. */
  method SaveToCsv(externalLinks: Ledger) returns (rows: seq<Row>)
    ensures rows == Rows(externalLinks)
  {
    rows := [Header];
    for i := 0 to |externalLinks|
      invariant rows == [Header] + EntryRows(externalLinks[..i])
    {
      rows := rows + [EntryRow(externalLinks[i])];
      assert externalLinks[..i + 1][..i] == externalLinks[..i];
    }
    assert externalLinks[..|externalLinks|] == externalLinks;
  }
}
