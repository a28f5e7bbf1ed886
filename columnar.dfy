/** The columnar data both jobs share: cells, rows keyed by column name,
    GeoParquet file metadata and Parquet files as the object store holds
    them. */
module Columnar {

  /** One value of a column: SQL null, text, a 64-bit float (treated as a
      number; only comparison with zero matters here), a timestamp, or a
      WKB point built from two coordinate cells. */
  datatype Cell =
    | Null
    | Text(text: string)
    | Float(number: real)
    | Timestamp(epochSeconds: int)
    | WkbPoint(x: Cell, y: Cell)

  /** A row: the value of each column, by column name. */
  type Row = map<string, Cell>

  /** The per-column entry of the GeoParquet "geo" metadata. */
  datatype GeoColumn = GeoColumn(encoding: string, geometryTypes: seq<string>, crs: string)

  /** GeoParquet file metadata (the value stored under the key "geo"). */
  datatype GeoMetadata = GeoMetadata(version: string, primaryColumn: string, columns: map<string, GeoColumn>)

  /** A file-level key/value metadata entry: the geo declaration, or any
      other entry (kept as its text). */
  datatype MetadataValue = Geo(geo: GeoMetadata) | Other(text: string)

  type FileMetadata = map<string, MetadataValue>

  /** A Parquet file: its column names in schema order, its file-level
      metadata and its rows. Row groups and encoding are not modelled. */
  datatype ParquetFile = ParquetFile(columns: seq<string>, metadata: FileMetadata, rows: seq<Row>)
}
