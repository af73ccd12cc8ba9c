/**
 * The joins by which both mappers rebuild the tree: records carry no parent pointers, so a record
 * is tied to a module or an entity only by equality of a tag value with that parent's name.
 */
module Association {
  import opened Wrappers
  import opened Doctrine
  import opened Tags
  import opened Seqs

  /** The record carries a `name` tag, which every conversion to a module, entity or method reads. */
  predicate Named(r: Annotation)
  {
    exists i :: 0 <= i < |r.tags| && IsName(r.tags[i])
  }

  /**
   * Module membership (`_onCommentsMatchingModule`, and the filter of the current mapper's
   * `getEntities`): some `module` tag names the module.
   */
  function InModule(r: Annotation, moduleName: Option<string>): (b: bool)
    ensures b <==> exists i :: 0 <= i < |r.tags| && IsModule(r.tags[i]) && r.tags[i].name == moduleName
  {
    var matching := (t: Tag) => IsModule(t) && t.name == moduleName;
    FilterEmpty(matching, r.tags);
    |Filter(matching, r.tags)| > 0
  }

  /**
   * Method ownership (`_onCommentsMatchingMethodsOfEntity`, and the first filter of the current
   * mapper's `getMethods`): some `methodOf` tag's description is the entity's name.
   */
  function MethodOfEntity(r: Annotation, entityName: Option<string>): (b: bool)
    ensures b <==> exists i :: 0 <= i < |r.tags| && IsMethodOf(r.tags[i]) && r.tags[i].description == entityName
  {
    var matching := (t: Tag) => IsMethodOf(t) && t.description == entityName;
    FilterEmpty(matching, r.tags);
    |Filter(matching, r.tags)| > 0
  }
}
