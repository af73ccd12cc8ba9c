/**
 * The older mapper's type rendering (lib/ngdoc/ngdocMapper.ts, getAttributes): two adapted cases and
 * two general facts. `OptionalArrayExample` is the `{Array<Object>} items` param of
 * lib/ngdoc/ngdocMapper.spec.ts:31-37, made optional; `ArrayOfTwoExample` is constructed.
 */
module NgdocMapperExamples {
  import opened Wrappers
  import opened Doctrine
  import opened Model
  import Text
  import opened NgdocMapper

  /** `{Array<A, B>} x`: the argument names joined with a comma, then `[]`. */
  lemma ArrayOfTwoExample()
    ensures ToAttribute(Tag("param", None, Some("x"), Some(Application(Name("Array"), [Name("A"), Name("B")])), None))
            == AttributeType(Some("x"), None, false, Some("A,B[]"), None, None)
  {
    assert ArgumentNames([Name("A"), Name("B")]) == ["A", "B"];
    assert ["A", "B"][1..] == ["B"];
    assert Text.Join(["A", "B"], ",") == "A" + "," + "B";
    assert "A" + "," + "B" + "[]" == "A,B[]";
  }

  /** `{Array<Object>=} items`: the optional layer is removed first, then the array is rendered. */
  lemma OptionalArrayExample()
    ensures ToAttribute(Tag("param", Some("Some attribute"), Some("items"),
                            Some(Optional(Application(Name("Array"), [Name("Object")]))), None))
            == AttributeType(Some("items"), Some("Some attribute"), true, Some("Object[]"), None, None)
  {
    assert ArgumentNames([Name("Object")]) == ["Object"];
    assert Text.Join(["Object"], ",") == "Object";
    assert "Object" + "[]" == "Object[]";
  }

  /** Only one optional layer is removed: what remains has no name of its own. */
  lemma OneOptionalLayerRemoved(inner: TypeExpression)
    ensures ToAttribute(Tag("param", None, Some("x"), Some(Optional(Optional(inner))), None)).typeName == None
    ensures ToAttribute(Tag("param", None, Some("x"), Some(Optional(Optional(inner))), None)).optional
  {
  }

  /** A type application over anything but `Array` gets no type name. */
  lemma NonArrayApplicationUntyped(apps: seq<TypeExpression>)
    ensures ToAttribute(Tag("param", None, Some("x"), Some(Application(Name("Map"), apps)), None)).typeName == None
  {
  }
}
