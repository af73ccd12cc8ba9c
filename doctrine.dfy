/**
 * The annotation records handed to the mappers by the comment parser (doctrine):
 * one record per documentation comment, each an ordered list of tags.
 */
module Doctrine {
  import opened Wrappers

  /** A structured type expression attached to a tag. */
  datatype TypeExpression =
    | Name(name: string)                                            // NameExpression
    | Optional(inner: TypeExpression)                               // OptionalType
    | Application(base: TypeExpression, apps: seq<TypeExpression>)  // TypeApplication
    | Other                                                         // any other syntax node

  /** One `@title` entry of a comment. */
  datatype Tag = Tag(
    title: string,
    description: Option<string>,
    name: Option<string>,
    typeExpr: Option<TypeExpression>,
    defaultValue: Option<string>)

  /** One documentation comment reduced to its tags. */
  datatype Annotation = Annotation(description: Option<string>, tags: seq<Tag>)

  /** `type.name` read off a type expression: only a NameExpression has one. */
  function NameOf(t: TypeExpression): (name: Option<string>)
  {
    if t.Name? then Some(t.name) else None
  }

  /** `tag.type.name` for a type that may be missing. */
  function TypeNameOf(t: Option<TypeExpression>): (name: Option<string>)
  {
    if t.Some? then NameOf(t.value) else None
  }
}
