/** The long-format opportunity table (`em_app.py`, `read_og_df`): one record
    per sales opportunity, plus the synthetic placeholder row the loader
    appends for the unassigned "New" territory. */
module Records {
  import opened Seqs

  /** A postal code as read from the file (a zero-padded string), or the
      number 0 that the placeholder row carries in that column. The two
      never compare equal: the string "0" is not the number 0. */
  datatype PostalCode = Code(text: string) | ZeroCode

  /** The three opportunity types of the file, and the 0 the placeholder row
      carries in that column. */
  datatype OpptyType = TypeA | TypeB | TypeC | ZeroType

  /** A producer's name, or the 0 of the placeholder row. */
  datatype ProducerName = Producer(name: string) | ZeroProducer

  /** One row of the long-format table. Money and coordinates are whole
      numbers here. `category` is absent (None) until a reassignment writes
      the column. */
  datatype Record = Record(
    producer: ProducerName,
    opptyType: OpptyType,
    totalAssets: int,
    postalCode: PostalCode,
    latitude: int,
    longitude: int,
    territory: string,
    category: Option<int>)

  const NewTerritory: string := "New"

  /** Every column 0 except the territory, which is "New". */
  const Placeholder: Record :=
    Record(ZeroProducer, ZeroType, 0, ZeroCode, 0, 0, NewTerritory, None)

  /** A row as it comes from the file: named producer, one of the three
      types, a postal-code string, and no category column. */
  predicate FileRow(r: Record) {
    r.producer.Producer? && r.opptyType != ZeroType && r.postalCode.Code? && r.category.None?
  }

  /** The loaded table: the file's rows followed by the placeholder row. */
  function Load(rows: seq<Record>): (df: seq<Record>)
    ensures |df| == |rows| + 1 && df[..|rows|] == rows
    ensures (forall r :: r in rows ==> FileRow(r)) ==> multiset(df)[Placeholder] == 1
  {
    assert (rows + [Placeholder])[..|rows|] == rows;
    assert (forall r :: r in rows ==> FileRow(r)) ==> Placeholder !in rows;
    rows + [Placeholder]
  }
}
