/**
 * A worked example for the current mapper. `RequiresExample` is adapted from the entity record of
 * lib/ngdoc/mapper/mapper.spec.ts:59-66: the `name` tag is moved between the requires tags and a
 * repeated requires name is added.
 */
module MapperExamples {
  import opened Wrappers
  import opened Doctrine
  import opened Seqs
  import opened Tags
  import opened Mapper

  /** The requires names come out in tag order, and a repeated name is kept twice. */
  lemma RequiresExample()
    ensures GetRequires(Annotation(None, [
              Tag("requires", None, Some("SomeOtherService"), None, None),
              Tag("name", None, Some("SomeService"), None, None),
              Tag("requires", None, Some("AnotherService"), None, None),
              Tag("requires", None, Some("SomeOtherService"), None, None)]))
            == [Some("SomeOtherService"), Some("AnotherService"), Some("SomeOtherService")]
  {
    var r := Annotation(None, [
      Tag("requires", None, Some("SomeOtherService"), None, None),
      Tag("name", None, Some("SomeService"), None, None),
      Tag("requires", None, Some("AnotherService"), None, None),
      Tag("requires", None, Some("SomeOtherService"), None, None)]);
    assert Filter(IsRequires, r.tags) == [r.tags[0], r.tags[2], r.tags[3]];
  }
}
