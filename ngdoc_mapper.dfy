/**
 * The older ngdoc mapper (lib/ngdoc/ngdocMapper.ts), the one the package still exports. It
 * differs from the current mapper: deprecation is a flag, entity kinds are checked against the
 * entity-type enumeration, `Array<..>` types are rendered as `X[]`, and an entity's attributes
 * and requires are looked up in separate passes over all records.
 */
module NgdocMapper {
  import opened Wrappers
  import opened Doctrine
  import opened Seqs
  import opened Text
  import opened Tags
  import opened Association
  import opened Model

  /** A method parameter: the raw type name, with no optional handling. */
  datatype ParamType = ParamType(name: Option<string>, description: Option<string>, typeName: Option<string>)

  datatype Method = Method(
    name: Option<string>,
    description: Option<string>,
    deprecated: bool,
    params: Option<seq<ParamType>>,
    returnType: Option<ReturnType>)

  datatype Entity = Entity(
    name: Option<string>,
    kind: Option<string>,                            // the `type` field
    deprecated: bool,
    description: Option<string>,
    attributes: Option<seq<AttributeType>>,
    requirements: Option<seq<Option<string>>>,       // the `requires` field
    methods: Option<seq<Method>>)

  datatype Module = Module(name: Option<string>, entities: Option<seq<Entity>>)

  /**
   * `_existingEntityType`: the upper-cased kind is a key of the entity-type enumeration, whose
   * keys are given as entityTypes. A tag without a kind is not an entity type.
   */
  function ExistingEntityType(tag: Tag, entityTypes: set<string>): (b: bool)
    ensures tag.description.None? ==> !b
    ensures tag.description.Some? ==> (b <==> Upper(tag.description.value) in entityTypes)
  {
    tag.description.Some? && Upper(tag.description.value) in entityTypes
  }

  /** `_onCommentsContainingTheModuleAnnotation`: some ngdoc tag has the value `module`. */
  function DeclaresModule(r: Annotation): (b: bool)
    ensures b <==> exists i :: 0 <= i < |r.tags| && IsNgdoc(r.tags[i]) && IsModuleValue(r.tags[i])
  {
    FilterFilterEmpty(IsNgdoc, IsModuleValue, r.tags);
    |Filter(IsModuleValue, Filter(IsNgdoc, r.tags))| > 0
  }

  /** `_onTagsMatchingEntity`: some tag titled `name` carries the entity's name. */
  function NamesEntity(r: Annotation, entityName: Option<string>): (b: bool)
    ensures b <==> exists i :: 0 <= i < |r.tags| && r.tags[i].title == "name" && r.tags[i].name == entityName
  {
    var naming := (t: Tag) => t.title == "name" && t.name == entityName;
    FilterEmpty(naming, r.tags);
    |Filter(naming, r.tags)| > 0
  }

  /** `_onTagsMatchingMethod`: some ngdoc tag has a method kind as its value. */
  function DeclaresMethod(r: Annotation): (b: bool)
    ensures b <==> exists i :: 0 <= i < |r.tags| && IsNgdoc(r.tags[i]) && IsMethodValue(r.tags[i])
  {
    FilterFilterEmpty(IsNgdoc, IsMethodValue, r.tags);
    |Filter(IsMethodValue, Filter(IsNgdoc, r.tags))| > 0
  }

  /** `_onTagsMatchingRequires`: the record has a requires tag. */
  function HasRequires(r: Annotation): (b: bool)
    ensures b <==> exists i :: 0 <= i < |r.tags| && IsRequires(r.tags[i])
  {
    FilterEmpty(IsRequires, r.tags);
    |Filter(IsRequires, r.tags)| > 0
  }

  /** `_onValidEntityType`: some ngdoc tag names a known entity type. */
  function ValidEntityType(r: Annotation, entityTypes: set<string>): (b: bool)
    ensures b <==> exists i :: 0 <= i < |r.tags| && IsNgdoc(r.tags[i]) && ExistingEntityType(r.tags[i], entityTypes)
  {
    var known := (t: Tag) => ExistingEntityType(t, entityTypes);
    FilterFilterEmpty(IsNgdoc, known, r.tags);
    |Filter(known, Filter(IsNgdoc, r.tags))| > 0
  }

  /** The record has an ngdoc tag, whose description `_toEntity` reads as the kind. */
  predicate HasKind(r: Annotation)
  {
    exists i :: 0 <= i < |r.tags| && IsNgdoc(r.tags[i])
  }

  /** The record has a description tag, which `_toMethod` reads unconditionally. */
  predicate Described(r: Annotation)
  {
    exists i :: 0 <= i < |r.tags| && IsDescription(r.tags[i])
  }

  /** What `getAttributes` does to a type: one OptionalType layer is removed. */
  function Unwrap(t: TypeExpression): (u: TypeExpression)
  {
    if t.Optional? then t.inner else t
  }

  /** `application.name` for each type argument: a non-name argument contributes an empty string to the join. */
  function ArgumentNames(apps: seq<TypeExpression>): (names: seq<string>)
  {
    seq(|apps|, i requires 0 <= i < |apps| => if apps[i].Name? then apps[i].name else "")
  }

  /**
   * The type name `getAttributes` gives an (unwrapped) type: `Array<A, B>` becomes `A,B[]`, any
   * other type application has none, and anything else has its own name, if it has one.
   */
  function TypeNameFor(t: TypeExpression): (name: Option<string>)
    ensures name.Some? <==> t.Name? || (t.Application? && t.base == Name("Array"))
    ensures t.Name? ==> name == Some(t.name)
    ensures t.Application? && t.base == Name("Array") ==> |name.value| >= 2 && name.value[|name.value| - 2..] == "[]"
  {
    match t
    case Name(n) => Some(n)
    case Application(base, apps) =>
      if base == Name("Array") then Some(Join(ArgumentNames(apps), ",") + "[]") else None
    case _ => None
  }

  /** `Array<T>` with a single named argument is rendered as `T[]`. */
  lemma ArrayOfOneName(n: string)
    ensures TypeNameFor(Application(Name("Array"), [Name(n)])) == Some(n + "[]")
  {
    assert ArgumentNames([Name(n)]) == [n];
  }

  /**
   * One more named argument of `Array` goes in before the `[]`, after a comma: with
   * `Array<A, B>` rendered as `A,B[]`, `Array<A, B, C>` is rendered as `A,B,C[]`.
   */
  lemma ArrayOfMoreNames(apps: seq<TypeExpression>, n: string)
    requires apps != []
    ensures var shorter := TypeNameFor(Application(Name("Array"), apps)).value;
            TypeNameFor(Application(Name("Array"), apps + [Name(n)])) == Some(shorter[..|shorter| - 2] + "," + n + "[]")
  {
    var joined := Join(ArgumentNames(apps), ",");
    assert ArgumentNames(apps + [Name(n)]) == ArgumentNames(apps) + [n];
    JoinSnoc(ArgumentNames(apps), n, ",");
    assert (joined + "[]")[..|joined + "[]"| - 2] == joined;
  }

  /** The callback of `getAttributes`: one param tag as an attribute. */
  function ToAttribute(tag: Tag): (a: AttributeType)
    ensures a.name == tag.name && a.description == tag.description
    ensures a.optional <==> tag.typeExpr.Some? && tag.typeExpr.value.Optional?
    ensures tag.typeExpr.None? ==> a.typeName.None?
    ensures tag.typeExpr.Some? ==> a.typeName == TypeNameFor(Unwrap(tag.typeExpr.value))
    ensures a.defaultValue.None? && a.binding.None?
  {
    match tag.typeExpr
    case None => AttributeType(tag.name, tag.description, false, None, None, None)
    case Some(t) => AttributeType(tag.name, tag.description, t.Optional?, TypeNameFor(Unwrap(t)), None, None)
  }

  /** Records of the module (`_onCommentsMatchingModule`) that name the entity. */
  predicate EntityRecord(r: Annotation, moduleName: Option<string>, entityName: Option<string>)
  {
    InModule(r, moduleName) && NamesEntity(r, entityName)
  }

  /**
   * `getAttributes`: the params of the first record of the module that names the entity, or none
   * when there is no such record.
   */
  function GetAttributes(records: seq<Annotation>, owner: Module, entity: Entity): (attributes: seq<AttributeType>)
    ensures |attributes| > 0 ==> exists r :: r in records && EntityRecord(r, owner.name, entity.name)
  {
    var inModule := Filter((r: Annotation) => InModule(r, owner.name), records);
    FilterMembers((r: Annotation) => InModule(r, owner.name), records);
    match Find((r: Annotation) => NamesEntity(r, entity.name), inModule)
    case None => []
    case Some(r) =>
      assert r in inModule;
      FilterMap(IsParam, ToAttribute, r.tags)
  }

  /** The attributes come from the first record of the module naming the entity, param by param. */
  lemma AttributesFromFirstRecord(records: seq<Annotation>, owner: Module, entity: Entity, i: int)
    requires 0 <= i < |records| && EntityRecord(records[i], owner.name, entity.name)
    requires forall j :: 0 <= j < i ==> !EntityRecord(records[j], owner.name, entity.name)
    ensures |GetAttributes(records, owner, entity)| == |Filter(IsParam, records[i].tags)|
    ensures forall k :: 0 <= k < |GetAttributes(records, owner, entity)| ==>
              GetAttributes(records, owner, entity)[k] == ToAttribute(Filter(IsParam, records[i].tags)[k])
  {
    FindAfterFilter((r: Annotation) => InModule(r, owner.name), (r: Annotation) => NamesEntity(r, entity.name), records, i);
    FilterMapElements(IsParam, ToAttribute, records[i].tags);
  }

  /** Without a record of the module naming the entity there are no attributes. */
  lemma NoAttributesWithoutRecord(records: seq<Annotation>, owner: Module, entity: Entity)
    requires forall j :: 0 <= j < |records| ==> !EntityRecord(records[j], owner.name, entity.name)
    ensures GetAttributes(records, owner, entity) == []
  {
    FindAfterFilterNone((r: Annotation) => InModule(r, owner.name), (r: Annotation) => NamesEntity(r, entity.name), records);
  }

  /** Records anywhere (in any module) that name the entity and have a requires tag. */
  predicate RequiresRecord(r: Annotation, entityName: Option<string>)
  {
    NamesEntity(r, entityName) && HasRequires(r)
  }

  /**
   * `getRequires`: the requires names of the first record, in any module, that names the entity
   * and has a requires tag; none when there is no such record.
   */
  function GetRequires(records: seq<Annotation>, entity: Entity): (names: seq<Option<string>>)
    ensures |names| > 0 ==> exists r :: r in records && RequiresRecord(r, entity.name)
  {
    var naming := Filter((r: Annotation) => NamesEntity(r, entity.name), records);
    FilterMembers((r: Annotation) => NamesEntity(r, entity.name), records);
    match Find(HasRequires, naming)
    case None => []
    case Some(r) =>
      assert r in naming;
      FilterMap(IsRequires, (t: Tag) => t.name, r.tags)
  }

  /** The requires come from the first matching record, one per requires tag, in tag order. */
  lemma RequiresFromFirstRecord(records: seq<Annotation>, entity: Entity, i: int)
    requires 0 <= i < |records| && RequiresRecord(records[i], entity.name)
    requires forall j :: 0 <= j < i ==> !RequiresRecord(records[j], entity.name)
    ensures |GetRequires(records, entity)| == |Filter(IsRequires, records[i].tags)|
    ensures forall k :: 0 <= k < |GetRequires(records, entity)| ==>
              GetRequires(records, entity)[k] == Filter(IsRequires, records[i].tags)[k].name
  {
    FindAfterFilter((r: Annotation) => NamesEntity(r, entity.name), HasRequires, records, i);
    FilterMapElements(IsRequires, (t: Tag) => t.name, records[i].tags);
  }

  /** Without a record naming the entity that has a requires tag there are no requires. */
  lemma NoRequiresWithoutRecord(records: seq<Annotation>, entity: Entity)
    requires forall j :: 0 <= j < |records| ==> !RequiresRecord(records[j], entity.name)
    ensures GetRequires(records, entity) == []
  {
    FindAfterFilterNone((r: Annotation) => NamesEntity(r, entity.name), HasRequires, records);
  }

  /** One param tag as a method parameter. */
  function ParamOf(tag: Tag): (p: ParamType)
    ensures p.name == tag.name && p.description == tag.description
    ensures p.typeName.Some? <==> tag.typeExpr.Some? && tag.typeExpr.value.Name?
    ensures p.typeName.Some? ==> p.typeName.value == tag.typeExpr.value.name
  {
    ParamType(tag.name, tag.description, TypeNameOf(tag.typeExpr))
  }

  /** The parameters `_getParams` collects, as a value. */
  function Params(r: Annotation): (ps: seq<ParamType>)
    ensures |ps| == |Filter(IsParam, r.tags)|
    ensures forall k :: 0 <= k < |ps| ==> ps[k] == ParamOf(Filter(IsParam, r.tags)[k])
  {
    FilterMapElements(IsParam, ParamOf, r.tags);
    FilterMap(IsParam, ParamOf, r.tags)
  }

  /** `_getParams`: pushes one parameter per param tag, in tag order. */
  method GetParams(r: Annotation) returns (paramTypes: seq<ParamType>)
    ensures paramTypes == Params(r)
  {
    var tags := Filter(IsParam, r.tags);
    paramTypes := [];
    var i := 0;
    while i < |tags|
      invariant 0 <= i <= |tags| && |paramTypes| == i
      invariant forall k :: 0 <= k < i ==> paramTypes[k] == ParamOf(tags[k])
    {
      paramTypes := paramTypes + [ParamOf(tags[i])];
      i := i + 1;
    }
    FilterMapElements(IsParam, ParamOf, r.tags);
  }

  /** `_getReturn`: built from the first returns tag, if there is one. */
  function GetReturn(r: Annotation): (ret: Option<ReturnType>)
    ensures ret.None? <==> forall i :: 0 <= i < |r.tags| ==> !IsReturns(r.tags[i])
    ensures forall i :: IsFirst(IsReturns, r.tags, i) ==>
              ret == Some(ReturnType(r.tags[i].description, TypeNameOf(r.tags[i].typeExpr)))
  {
    match Find(IsReturns, r.tags)
    case None => None
    case Some(tag) => Some(ReturnType(tag.description, TypeNameOf(tag.typeExpr)))
  }

  /** `_toEntity`: name, kind, a deprecation flag and the description; nothing else is set yet. */
  function ToEntity(r: Annotation): (e: Entity)
    requires Named(r) && HasKind(r)
    ensures forall i :: IsFirst(IsName, r.tags, i) ==> e.name == r.tags[i].name
    ensures forall i :: IsFirst(IsNgdoc, r.tags, i) ==> e.kind == r.tags[i].description
    ensures e.deprecated <==> exists i :: 0 <= i < |r.tags| && IsDeprecated(r.tags[i])
    ensures forall i :: IsFirst(IsDescription, r.tags, i) ==> e.description == r.tags[i].description
    ensures (forall i :: 0 <= i < |r.tags| ==> !IsDescription(r.tags[i])) ==> e.description == None
    ensures e.attributes == None && e.requirements == None && e.methods == None
  {
    var description := Find(IsDescription, r.tags);
    Entity(Find(IsName, r.tags).value.name,
           Find(IsNgdoc, r.tags).value.description,
           Any(IsDeprecated, r.tags),
           if description.Some? then description.value.description else None,
           None, None, None)
  }

  /** `_toMethod`. */
  function ToMethod(r: Annotation): (m: Method)
    requires Named(r) && Described(r)
    ensures forall i :: IsFirst(IsName, r.tags, i) ==> m.name == r.tags[i].name
    ensures forall i :: IsFirst(IsDescription, r.tags, i) ==> m.description == r.tags[i].description
    ensures m.deprecated <==> exists i :: 0 <= i < |r.tags| && IsDeprecated(r.tags[i])
    ensures m.returnType == GetReturn(r)
    ensures m.params.Some? <==> exists i :: 0 <= i < |r.tags| && IsParam(r.tags[i])
    ensures m.params.Some? ==> m.params.value == Params(r)
  {
    var params := Params(r);
    FilterEmpty(IsParam, r.tags);
    Method(Find(IsName, r.tags).value.name,
           Find(IsDescription, r.tags).value.description,
           Any(IsDeprecated, r.tags),
           if |params| > 0 then Some(params) else None,
           GetReturn(r))
  }

  /** `_toModule`: a module carries only its name. */
  function ToModule(r: Annotation): (m: Module)
    requires Named(r)
    ensures forall i :: IsFirst(IsName, r.tags, i) ==> m.name == r.tags[i].name
    ensures m.entities == None
  {
    Module(Find(IsName, r.tags).value.name, None)
  }

  /** Every module-declaring record can be converted. */
  predicate ModulesNamed(records: seq<Annotation>)
  {
    forall r :: r in records && DeclaresModule(r) ==> Named(r)
  }

  /** `getModules`. */
  function GetModules(records: seq<Annotation>): (modules: seq<Module>)
    requires ModulesNamed(records)
    ensures |modules| == |Filter(DeclaresModule, records)|
  {
    FilterMap(DeclaresModule, ToModule, records)
  }

  /** getModules yields one module per record with an `ngdoc module` tag, and nothing else. */
  lemma ModulesExact(records: seq<Annotation>)
    requires ModulesNamed(records)
    ensures |GetModules(records)| == |Filter(DeclaresModule, records)|
    ensures forall m :: m in GetModules(records) <==> exists r :: r in records && DeclaresModule(r) && m == ToModule(r)
  {
    FilterMapMembers(DeclaresModule, ToModule, records);
  }

  /** Modules come out in the order of their records. */
  lemma ModulesInInputOrder(a: seq<Annotation>, b: seq<Annotation>)
    requires ModulesNamed(a + b)
    ensures ModulesNamed(a) && ModulesNamed(b)
    ensures GetModules(a + b) == GetModules(a) + GetModules(b)
  {
    FilterMapConcat(DeclaresModule, ToModule, a, b);
  }

  /** Every record of the module with a known entity type can be converted. */
  predicate EntitiesNamed(records: seq<Annotation>, moduleName: Option<string>, entityTypes: set<string>)
  {
    forall r :: r in records && InModule(r, moduleName) && ValidEntityType(r, entityTypes) ==> Named(r) && HasKind(r)
  }

  /** `getEntities`. */
  function GetEntities(records: seq<Annotation>, owner: Module, entityTypes: set<string>): (entities: seq<Entity>)
    requires EntitiesNamed(records, owner.name, entityTypes)
    ensures |entities| == |Filter((r: Annotation) => InModule(r, owner.name) && ValidEntityType(r, entityTypes), records)|
  {
    FilterMap((r: Annotation) => InModule(r, owner.name) && ValidEntityType(r, entityTypes), ToEntity, records)
  }

  /**
   * getEntities yields exactly the entities of the records that name the module AND declare a
   * known entity type: a record whose kind is not in the enumeration is dropped.
   */
  lemma EntitiesExact(records: seq<Annotation>, owner: Module, entityTypes: set<string>)
    requires EntitiesNamed(records, owner.name, entityTypes)
    ensures forall e :: e in GetEntities(records, owner, entityTypes) <==>
              exists r :: r in records && InModule(r, owner.name) && ValidEntityType(r, entityTypes) && e == ToEntity(r)
  {
    FilterMapMembers((r: Annotation) => InModule(r, owner.name) && ValidEntityType(r, entityTypes), ToEntity, records);
  }

  /** Entities come out in the order of their records. */
  lemma EntitiesInInputOrder(a: seq<Annotation>, b: seq<Annotation>, owner: Module, entityTypes: set<string>)
    requires EntitiesNamed(a + b, owner.name, entityTypes)
    ensures EntitiesNamed(a, owner.name, entityTypes) && EntitiesNamed(b, owner.name, entityTypes)
    ensures GetEntities(a + b, owner, entityTypes) == GetEntities(a, owner, entityTypes) + GetEntities(b, owner, entityTypes)
  {
    FilterMapConcat((r: Annotation) => InModule(r, owner.name) && ValidEntityType(r, entityTypes), ToEntity, a, b);
  }

  /** Every method record of the entity can be converted. */
  predicate MethodsConvertible(records: seq<Annotation>, entityName: Option<string>)
  {
    forall r :: r in records && MethodOfEntity(r, entityName) && DeclaresMethod(r) ==> Named(r) && Described(r)
  }

  /** `getMethods`: the records that refer to the entity, then of those the ones declaring a method. */
  function GetMethods(records: seq<Annotation>, entity: Entity): (methods: seq<Method>)
    requires MethodsConvertible(records, entity.name)
    ensures |methods| == |Filter(DeclaresMethod, Filter((r: Annotation) => MethodOfEntity(r, entity.name), records))|
  {
    var owned := Filter((r: Annotation) => MethodOfEntity(r, entity.name), records);
    FilterMembers((r: Annotation) => MethodOfEntity(r, entity.name), records);
    FilterMap(DeclaresMethod, ToMethod, owned)
  }

  /** getMethods yields exactly the methods of the records that refer to the entity AND declare a method kind. */
  lemma MethodsExact(records: seq<Annotation>, entity: Entity)
    requires MethodsConvertible(records, entity.name)
    ensures forall m :: m in GetMethods(records, entity) <==>
              exists r :: r in records && MethodOfEntity(r, entity.name) && DeclaresMethod(r) && m == ToMethod(r)
  {
    var owns := (r: Annotation) => MethodOfEntity(r, entity.name);
    var owned := Filter(owns, records);
    FilterMembers(owns, records);
    FilterMapMembers(DeclaresMethod, ToMethod, owned);
    var methods := GetMethods(records, entity);
    assert methods == FilterMap(DeclaresMethod, ToMethod, owned);
    forall m | m in methods
      ensures exists r :: r in records && MethodOfEntity(r, entity.name) && DeclaresMethod(r) && m == ToMethod(r)
    {
      var r :| r in owned && DeclaresMethod(r) && m == ToMethod(r);
      assert r in records && owns(r);
    }
    forall r | r in records && MethodOfEntity(r, entity.name) && DeclaresMethod(r)
      ensures ToMethod(r) in methods
    {
      assert r in owned;
    }
  }

  /** Methods come out in the order of their records. */
  lemma MethodsInInputOrder(a: seq<Annotation>, b: seq<Annotation>, entity: Entity)
    requires MethodsConvertible(a + b, entity.name)
    ensures MethodsConvertible(a, entity.name) && MethodsConvertible(b, entity.name)
    ensures GetMethods(a + b, entity) == GetMethods(a, entity) + GetMethods(b, entity)
  {
    var owns := (r: Annotation) => MethodOfEntity(r, entity.name);
    FilterConcat(owns, a, b);
    FilterMembers(owns, a + b);
    FilterMembers(owns, a);
    FilterMembers(owns, b);
    FilterMapConcat(DeclaresMethod, ToMethod, Filter(owns, a), Filter(owns, b));
  }

  /** Every record `map` converts can be converted. */
  predicate Mappable(records: seq<Annotation>, entityTypes: set<string>)
  {
    ModulesNamed(records) &&
    (forall m :: m in GetModules(records) ==> EntitiesNamed(records, m.name, entityTypes)) &&
    (forall m, e :: m in GetModules(records) && e in GetEntities(records, m, entityTypes) ==>
       MethodsConvertible(records, e.name))
  }

  /** An entity as `map` leaves it: methods, attributes and requires filled in. */
  function Completed(records: seq<Annotation>, owner: Module, e: Entity): (done: Entity)
    requires MethodsConvertible(records, e.name)
    ensures done.name == e.name && done.kind == e.kind && done.deprecated == e.deprecated
    ensures done.description == e.description
    ensures done.methods.Some? && done.attributes.Some? && done.requirements.Some?
  {
    e.(methods := Some(GetMethods(records, e)),
       attributes := Some(GetAttributes(records, owner, e)),
       requirements := Some(GetRequires(records, e)))
  }

  /** m is the declared module with its entities filled in, in record order, each one completed. */
  ghost predicate Filled(records: seq<Annotation>, entityTypes: set<string>, declared: Module, m: Module)
  {
    EntitiesNamed(records, declared.name, entityTypes) &&
    (forall e :: e in GetEntities(records, declared, entityTypes) ==> MethodsConvertible(records, e.name)) &&
    var members := GetEntities(records, declared, entityTypes);
    m.name == declared.name && m.entities.Some? && |m.entities.value| == |members| &&
    forall j :: 0 <= j < |members| ==> m.entities.value[j] == Completed(records, declared, members[j])
  }

  /** One pass of the outer loop of `map`. */
  method FillModule(records: seq<Annotation>, entityTypes: set<string>, owner: Module) returns (filled: Module)
    requires EntitiesNamed(records, owner.name, entityTypes)
    requires forall e :: e in GetEntities(records, owner, entityTypes) ==> MethodsConvertible(records, e.name)
    ensures Filled(records, entityTypes, owner, filled)
  {
    var entities := GetEntities(records, owner, entityTypes);
    ghost var members := entities;
    var j := 0;
    while j < |entities|
      invariant 0 <= j <= |entities| == |members|
      invariant forall k :: j <= k < |entities| ==> entities[k] == members[k]
      invariant forall k :: 0 <= k < j ==> entities[k] == Completed(records, owner, members[k])
    {
      assert entities[j] in members;
      var entity := entities[j];
      entity := entity.(methods := Some(GetMethods(records, entity)));
      entity := entity.(attributes := Some(GetAttributes(records, owner, entity)));
      entity := entity.(requirements := Some(GetRequires(records, entity)));
      entities := entities[j := entity];
      j := j + 1;
    }
    filled := owner.(entities := Some(entities));
  }

  /**
   * `map`: the modules declared by `ngdoc module` records, in record order, each with its
   * entities filled in and each entity with its methods, attributes and requires.
   */
  method Map(records: seq<Annotation>, entityTypes: set<string>) returns (modules: seq<Module>)
    requires Mappable(records, entityTypes)
    ensures |modules| == |GetModules(records)|
    ensures forall i :: 0 <= i < |modules| ==> Filled(records, entityTypes, GetModules(records)[i], modules[i])
  {
    modules := GetModules(records);
    ghost var declared := modules;
    var i := 0;
    while i < |modules|
      invariant 0 <= i <= |modules| == |declared|
      invariant forall k :: i <= k < |modules| ==> modules[k] == declared[k]
      invariant forall k :: 0 <= k < i ==> Filled(records, entityTypes, declared[k], modules[k])
    {
      assert modules[i] in declared;
      var filled := FillModule(records, entityTypes, modules[i]);
      ghost var prev := modules;
      modules := modules[i := filled];
      forall k | 0 <= k < i + 1
        ensures Filled(records, entityTypes, declared[k], modules[k])
      {
        if k < i {
          assert modules[k] == prev[k];
        }
      }
      i := i + 1;
    }
  }
}
