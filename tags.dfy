/**
 * Tag classification (lib/ngdoc/tags.ts): which role a tag plays, decided by its title
 * against a fixed set of aliases, and the two value tests on a tag's description.
 */
module Tags {
  import opened Wrappers
  import opened Doctrine
  import opened Seqs

  /** `_onlyAtTags`: the tag's title is exactly one of the given names (case-sensitive). */
  function OnlyAtTags(tag: Tag, tagNames: seq<string>): (r: bool)
    ensures r <==> tag.title in tagNames
  {
    Any((tagName: string) => tag.title == tagName, tagNames)
  }

  function IsDescription(tag: Tag): (r: bool)
    ensures r <==> tag.title == "description" || tag.title == "desc"
  {
    OnlyAtTags(tag, ["description", "desc"])
  }

  function IsDeprecated(tag: Tag): (r: bool)
    ensures r <==> tag.title == "deprecated"
  {
    OnlyAtTags(tag, ["deprecated"])
  }

  function IsMethodOf(tag: Tag): (r: bool)
    ensures r <==> tag.title == "methodOf"
  {
    OnlyAtTags(tag, ["methodOf"])
  }

  function IsModule(tag: Tag): (r: bool)
    ensures r <==> tag.title == "module"
  {
    OnlyAtTags(tag, ["module"])
  }

  function IsName(tag: Tag): (r: bool)
    ensures r <==> tag.title == "name"
  {
    OnlyAtTags(tag, ["name"])
  }

  /** The kind marker: `@ngdoc` or its alias `@yadop`. */
  function IsNgdoc(tag: Tag): (r: bool)
    ensures r <==> tag.title == "ngdoc" || tag.title == "yadop"
  {
    OnlyAtTags(tag, ["ngdoc", "yadop"])
  }

  function IsParam(tag: Tag): (r: bool)
    ensures r <==> tag.title == "param" || tag.title == "arg" || tag.title == "argument"
  {
    OnlyAtTags(tag, ["param", "arg", "argument"])
  }

  function IsRequires(tag: Tag): (r: bool)
    ensures r <==> tag.title == "requires"
  {
    OnlyAtTags(tag, ["requires"])
  }

  function IsReturns(tag: Tag): (r: bool)
    ensures r <==> tag.title == "returns" || tag.title == "return"
  {
    OnlyAtTags(tag, ["returns", "return"])
  }

  /** `values.method`: the tag's description (not its title) names a method kind. */
  function IsMethodValue(tag: Tag): (r: bool)
    ensures r <==> tag.description.Some? && tag.description.value in {"function", "func", "method"}
  {
    Any((kind: string) => tag.description == Some(kind), ["function", "func", "method"])
  }

  /** `values.module`: the tag's description is exactly "module". */
  function IsModuleValue(tag: Tag): (r: bool)
    ensures r <==> tag.description.Some? && tag.description.value == "module"
  {
    tag.description == Some("module")
  }

  /** The roles a tag can play, one per alias set. */
  datatype Role = DescriptionRole | DeprecatedRole | MethodOfRole | ModuleRole | NameRole
                | NgdocRole | ParamRole | RequiresRole | ReturnsRole

  /** A reference classification of titles, written as a lookup table. */
  function RoleOf(title: string): (role: Option<Role>)
  {
    match title
    case "description" => Some(DescriptionRole)
    case "desc" => Some(DescriptionRole)
    case "deprecated" => Some(DeprecatedRole)
    case "methodOf" => Some(MethodOfRole)
    case "module" => Some(ModuleRole)
    case "name" => Some(NameRole)
    case "ngdoc" => Some(NgdocRole)
    case "yadop" => Some(NgdocRole)
    case "param" => Some(ParamRole)
    case "arg" => Some(ParamRole)
    case "argument" => Some(ParamRole)
    case "requires" => Some(RequiresRole)
    case "returns" => Some(ReturnsRole)
    case "return" => Some(ReturnsRole)
    case _ => None
  }

  /**
   * Each title predicate agrees with the lookup table, so the alias sets are disjoint:
   * a tag plays at most one role (descriptive roles).
   */
  lemma DescriptiveRolesFollowTitle(tag: Tag)
    ensures IsDescription(tag) <==> RoleOf(tag.title) == Some(DescriptionRole)
    ensures IsDeprecated(tag) <==> RoleOf(tag.title) == Some(DeprecatedRole)
    ensures IsName(tag) <==> RoleOf(tag.title) == Some(NameRole)
  {
  }

  /** As above, for the roles that place a record in the module tree. */
  lemma PlacementRolesFollowTitle(tag: Tag)
    ensures IsMethodOf(tag) <==> RoleOf(tag.title) == Some(MethodOfRole)
    ensures IsModule(tag) <==> RoleOf(tag.title) == Some(ModuleRole)
    ensures IsNgdoc(tag) <==> RoleOf(tag.title) == Some(NgdocRole)
  {
  }

  /** As above, for the roles that describe a member's signature. */
  lemma SignatureRolesFollowTitle(tag: Tag)
    ensures IsParam(tag) <==> RoleOf(tag.title) == Some(ParamRole)
    ensures IsRequires(tag) <==> RoleOf(tag.title) == Some(RequiresRole)
    ensures IsReturns(tag) <==> RoleOf(tag.title) == Some(ReturnsRole)
  {
  }

  /** A kind marker cannot declare a module and a method at once. */
  lemma KindValuesDisjoint(tag: Tag)
    ensures !(IsModuleValue(tag) && IsMethodValue(tag))
  {
  }
}
