/**
 * The structural model shared by the reader and the generator: one field, one
 * discovered struct, and one mapping configuration.  These are plain records.
 */
module Types {

  /** One struct field: its name, its rendered type and the reader's classifiers. */
  datatype FieldInfo = FieldInfo(
    name: string,
    fieldType: string,
    isOmitted: bool,   // carried along; neither the reader nor the generator reads it
    isNested: bool,
    isSlice: bool,
    isPointer: bool)

  /** One discovered struct, its fields in declaration order. */
  datatype StructInfo = StructInfo(
    packageName: string,
    packagePath: string,
    typeName: string,
    fields: seq<FieldInfo>)

  /**
   * One generation unit.  A key of `omitFields` mapped to `false` does not
   * omit anything: the generator reads the map with Go's zero-value lookup.
   */
  datatype MappingConfig = MappingConfig(
    sourceType: StructInfo,
    targetType: StructInfo,
    omitFields: map<string, bool>,
    fieldMap: map<string, string>)

  /** The names declared by a field list. */
  function FieldNames(fields: seq<FieldInfo>): set<string>
  {
    set f | f in fields :: f.name
  }
}
