/** The shapes every type collector produces: tables whose columns carry a
    `Type` from the type algebra. */
module TypeCollector {
  import opened Wrappers
  import opened Types

  datatype ColumnMetadata = ColumnMetadata(name: string, columnType: Type, comment: Option<string>)

  datatype TableMetadata = TableMetadata(
    name: string,
    columns: seq<ColumnMetadata>,
    schema: Option<string>,
    comment: Option<string>)
}
