/** The metadata shapes the legacy MySQL introspector produces and the
    declaration builder consumes: a column's TypeScript type is opaque text
    plus the imports it needs. */
module Introspector {
  import opened Wrappers
  import opened Imports

  /** `TsType`: the text of the type and, optionally, its imports. */
  datatype TsType = TsType(text: string, imports: Option<seq<TypeImport>>)

  datatype ColumnMetadata = ColumnMetadata(name: string, comment: Option<string>, tsType: TsType)

  datatype TableMetadata = TableMetadata(
    name: string,
    schema: Option<string>,
    columns: seq<ColumnMetadata>,
    comment: Option<string>)
}
