/**
 * How the two mappers relate on the same records: where they agree and where the current mapper
 * (lib/ngdoc/mapper/mapper.ts) departs from the older one (lib/ngdoc/ngdocMapper.ts).
 */
module MapperComparison {
  import opened Wrappers
  import opened Doctrine
  import opened Tags
  import opened Association
  import Mapper
  import NgdocMapper

  /** A record the older mapper takes as a method is one the current mapper takes as a method too. */
  lemma MethodMarkerWidened(r: Annotation)
    requires NgdocMapper.DeclaresMethod(r)
    ensures Mapper.IsMethodRecord(r)
  {
  }

  /**
   * The converse fails: the current mapper tests the value of any tag, so a record whose only
   * tag reading `method` is its description counts as a method there and not in the older mapper.
   */
  lemma MethodMarkerNotNarrowed()
    ensures Mapper.IsMethodRecord(Annotation(None, [Tag("description", Some("method"), None, None, None)]))
    ensures !NgdocMapper.DeclaresMethod(Annotation(None, [Tag("description", Some("method"), None, None, None)]))
  {
    var r := Annotation(None, [Tag("description", Some("method"), None, None, None)]);
    assert IsMethodValue(r.tags[0]);
    assert !IsNgdoc(r.tags[0]);
  }

  /** The same holds for module declarations. */
  lemma ModuleMarkerWidened(r: Annotation)
    requires NgdocMapper.DeclaresModule(r)
    ensures Mapper.IsModuleDecl(r)
  {
  }

  /**
   * Both mappers read optionality the same way and agree on the type of an optional named type;
   * for a plain named type only the older mapper records the name.
   */
  lemma AttributeTypesCompared(tag: Tag)
    ensures Mapper.ToAttributeType(tag).optional == NgdocMapper.ToAttribute(tag).optional
    ensures tag.typeExpr.Some? && tag.typeExpr.value.Optional? && tag.typeExpr.value.inner.Name? ==>
              Mapper.ToAttributeType(tag).typeName == NgdocMapper.ToAttribute(tag).typeName == Some(tag.typeExpr.value.inner.name)
    ensures tag.typeExpr.Some? && tag.typeExpr.value.Name? ==>
              Mapper.ToAttributeType(tag).typeName == None &&
              NgdocMapper.ToAttribute(tag).typeName == Some(tag.typeExpr.value.name)
  {
  }

  /** A deprecation reason in the current mapper means the older mapper raises its flag. */
  lemma DeprecationCompared(r: Annotation)
    requires Named(r) && NgdocMapper.HasKind(r)
    ensures Mapper.ToEntity(r).yadop.deprecated.Some? ==> NgdocMapper.ToEntity(r).deprecated
  {
  }
}
