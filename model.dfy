/** Output shapes both mappers share (lib/ngdoc/model/attributeType.ts and the return type). */
module Model {
  import opened Wrappers

  /** A documented attribute or parameter. */
  datatype AttributeType = AttributeType(
    name: Option<string>,
    description: Option<string>,
    optional: bool,
    typeName: Option<string>,
    defaultValue: Option<string>,
    binding: Option<string>)

  /** What a method returns: the return tag's text and the raw name of its type. */
  datatype ReturnType = ReturnType(name: Option<string>, typeName: Option<string>)
}
