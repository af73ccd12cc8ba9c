/**
 * The current ngdoc mapper (lib/ngdoc/mapper/mapper.ts): rebuilds the Module -> Entity -> Method
 * tree from a flat list of annotation records. Deprecation is kept as reason text, any entity
 * kind is accepted, and component attributes get their binding operator extracted.
 */
module Mapper {
  import opened Wrappers
  import opened Doctrine
  import opened Seqs
  import opened Text
  import opened Tags
  import opened Association
  import opened Model

  /** The fields every documented element shares. */
  datatype Yadop = Yadop(name: Option<string>, description: Option<string>, deprecated: Option<string>)

  datatype Method = Method(yadop: Yadop, params: Option<seq<AttributeType>>, returnType: Option<ReturnType>)

  datatype Entity = Entity(
    yadop: Yadop,
    kind: Option<string>,
    attributes: Option<seq<AttributeType>>,
    requirements: seq<Option<string>>,   // the `requires` field
    methods: Option<seq<Method>>)

  datatype Module = Module(yadop: Yadop, entities: Option<seq<Entity>>)

  /** The filter of `getModules`: some tag, of any title, has the description "module". */
  function IsModuleDecl(r: Annotation): (b: bool)
    ensures b <==> exists i :: 0 <= i < |r.tags| && IsModuleValue(r.tags[i])
  {
    FilterEmpty(IsModuleValue, r.tags);
    |Filter(IsModuleValue, r.tags)| > 0
  }

  /** The second filter of `getMethods`: some tag, of any title, has a method kind as description. */
  function IsMethodRecord(r: Annotation): (b: bool)
    ensures b <==> exists i :: 0 <= i < |r.tags| && IsMethodValue(r.tags[i])
  {
    FilterEmpty(IsMethodValue, r.tags);
    |Filter(IsMethodValue, r.tags)| > 0
  }

  /** `_createYadop`: name, description and deprecation reason read off the first tag of each role. */
  function CreateYadop(r: Annotation): (y: Yadop)
    requires Named(r)
    ensures forall i :: IsFirst(IsName, r.tags, i) ==> y.name == r.tags[i].name
    ensures forall i :: IsFirst(IsDescription, r.tags, i) ==> y.description == r.tags[i].description
    ensures (forall i :: 0 <= i < |r.tags| ==> !IsDescription(r.tags[i])) ==> y.description == None
    ensures forall i :: IsFirst(IsDeprecated, r.tags, i) ==> y.deprecated == r.tags[i].description
    ensures (forall i :: 0 <= i < |r.tags| ==> !IsDeprecated(r.tags[i])) ==> y.deprecated == None
  {
    var nameTag := Find(IsName, r.tags);
    var description := Find(IsDescription, r.tags);
    var deprecated := Find(IsDeprecated, r.tags);
    Yadop(nameTag.value.name,
          if description.Some? then description.value.description else None,
          if deprecated.Some? then deprecated.value.description else None)
  }

  /** `_toAttributeType`: one param tag as an attribute, unwrapping an OptionalType. */
  function ToAttributeType(tag: Tag): (a: AttributeType)
    ensures a.name == tag.name && a.binding == None
    ensures a.optional <==> tag.typeExpr.Some? && tag.typeExpr.value.Optional?
    ensures a.typeName.Some? <==> a.optional && tag.typeExpr.value.inner.Name?
    ensures a.typeName.Some? ==> a.typeName.value == tag.typeExpr.value.inner.name
    ensures a.defaultValue == if a.optional then tag.defaultValue else None
    ensures a.description.Some? <==> tag.description.Some? && tag.description.value != ""
    ensures a.description.Some? ==> BreaksStripped(tag.description.value, a.description.value)
  {
    var description :=
      if tag.description.Some? && tag.description.value != "" then Some(StripLeadingBreaks(tag.description.value))
      else None;
    var optional := tag.typeExpr.Some? && tag.typeExpr.value.Optional?;
    var typeName := if optional && tag.typeExpr.value.inner.Name? then Some(tag.typeExpr.value.inner.name) else None;
    AttributeType(tag.name, description, optional, typeName, if optional then tag.defaultValue else None, None)
  }

  /** Two attributes declare the same thing: they differ at most in description and binding. */
  predicate SameDeclaration(a: AttributeType, b: AttributeType)
  {
    a.name == b.name && a.optional == b.optional && a.typeName == b.typeName && a.defaultValue == b.defaultValue
  }

  /**
   * The callback of `_getBindings`: the first maximal run of binding operators in the description
   * becomes the binding and is cut out of the description, whose leading line breaks are then stripped.
   */
  function ExtractBinding(a: AttributeType): (b: AttributeType)
    ensures SameDeclaration(a, b)
    ensures a.description.None? ==> b == a
    ensures a.description.Some? && (forall i :: 0 <= i < |a.description.value| ==> !IsBindingChar(a.description.value[i]))
            ==> b == a
    ensures forall m :: a.description.Some? && IsFirstRun(a.description.value, m) ==>
              b.binding == Some(a.description.value[m.start..m.end]) && b.description.Some? &&
              BreaksStripped(a.description.value[..m.start] + a.description.value[m.end..], b.description.value)
  {
    match a.description
    case None => a
    case Some(d) =>
      match BindingRun(d)
      case None => a
      case Some(m) =>
        var run := d[m.start..m.end];
        ReplaceRemovesFirstRun(d, m);
        FirstRunUnique(d, m);
        a.(description := Some(StripLeadingBreaks(ReplaceFirst(d, run))), binding := Some(run))
  }

  /**
   * A description that opens with an operator run on a line of its own, as in `@param {T} x &`
   * followed by the text: the run becomes the binding and the text is kept whole, including any
   * operator characters further on.
   */
  lemma LeadingBindingExtracted(a: AttributeType, op: string, text: string)
    requires a.description == Some(op + "\n" + text)
    requires |op| > 0 && forall i :: 0 <= i < |op| ==> IsBindingChar(op[i])
    requires text == [] || !IsLineBreak(text[0])
    ensures ExtractBinding(a) == a.(description := Some(text), binding := Some(op))
  {
    var d := op + "\n" + text;
    var m := Span(0, |op|);
    assert d[|op|] == '\n';
    assert forall i :: 0 <= i < |op| ==> d[i] == op[i];
    assert IsFirstRun(d, m);
    assert d[m.start..m.end] == op;
    assert d[..m.start] + d[m.end..] == "\n" + text;
    var b := ExtractBinding(a);
    BreaksStrippedUnique("\n" + text, b.description.value, text);
  }

  /** `_getAttributes`: one attribute per param tag, in tag order. */
  function GetAttributes(r: Annotation): (attributes: seq<AttributeType>)
    ensures |attributes| == |Filter(IsParam, r.tags)|
    ensures forall i :: 0 <= i < |attributes| ==> attributes[i] == ToAttributeType(Filter(IsParam, r.tags)[i])
  {
    FilterMapElements(IsParam, ToAttributeType, r.tags);
    FilterMap(IsParam, ToAttributeType, r.tags)
  }

  /** `_getBindings`: the plain attributes with their binding operators extracted. */
  function GetBindings(r: Annotation): (attributes: seq<AttributeType>)
    ensures |attributes| == |GetAttributes(r)|
    ensures forall i :: 0 <= i < |attributes| ==> attributes[i] == ExtractBinding(GetAttributes(r)[i])
  {
    var plain := GetAttributes(r);
    seq(|plain|, i requires 0 <= i < |plain| => ExtractBinding(plain[i]))
  }

  /** `_getRequires`: the name of every requires tag, in tag order, duplicates kept. */
  function GetRequires(r: Annotation): (names: seq<Option<string>>)
    ensures |names| == |Filter(IsRequires, r.tags)|
    ensures forall i :: 0 <= i < |names| ==> names[i] == Filter(IsRequires, r.tags)[i].name
  {
    FilterMapElements(IsRequires, (t: Tag) => t.name, r.tags);
    FilterMap(IsRequires, (t: Tag) => t.name, r.tags)
  }

  /** `_getReturn`: built from the first returns tag, if there is one. */
  function GetReturn(r: Annotation): (ret: Option<ReturnType>)
    ensures ret.None? <==> forall i :: 0 <= i < |r.tags| ==> !IsReturns(r.tags[i])
    ensures forall i :: IsFirst(IsReturns, r.tags, i) ==>
              ret == Some(ReturnType(r.tags[i].description, TypeNameOf(r.tags[i].typeExpr)))
  {
    match Find(IsReturns, r.tags)
    case None => None
    case Some(tag) => Some(ReturnType(tag.description, TypeNameOf(tag.typeExpr)))
  }

  /** `_toEntity`. */
  function ToEntity(r: Annotation): (e: Entity)
    requires Named(r)
    ensures e.yadop == CreateYadop(r) && e.requirements == GetRequires(r) && e.methods == None
    ensures forall i :: IsFirst(IsNgdoc, r.tags, i) ==> e.kind == r.tags[i].description
    ensures e.attributes.None? <==> forall i :: 0 <= i < |r.tags| ==> !IsNgdoc(r.tags[i])
    ensures e.attributes.None? ==> e.kind.None?
    ensures e.kind == Some("component") ==> e.attributes == Some(GetBindings(r))
    ensures e.attributes.Some? && e.kind != Some("component") ==> e.attributes == Some(GetAttributes(r))
  {
    var kindTag := Find(IsNgdoc, r.tags);
    var kind := if kindTag.Some? then kindTag.value.description else None;
    var attributes :=
      if kindTag.None? then None
      else if kind == Some("component") then Some(GetBindings(r))
      else Some(GetAttributes(r));
    Entity(CreateYadop(r), kind, attributes, GetRequires(r), None)
  }

  /** `_toMethod`. */
  function ToMethod(r: Annotation): (m: Method)
    requires Named(r)
    ensures m.yadop == CreateYadop(r) && m.returnType == GetReturn(r)
    ensures m.params.Some? <==> exists i :: 0 <= i < |r.tags| && IsParam(r.tags[i])
    ensures m.params.Some? ==> m.params.value == GetAttributes(r)
  {
    var params := GetAttributes(r);
    FilterEmpty(IsParam, r.tags);
    Method(CreateYadop(r), if |params| > 0 then Some(params) else None, GetReturn(r))
  }

  /** `_toModule`: a module starts with the shared fields and no entities. */
  function ToModule(r: Annotation): (m: Module)
    requires Named(r)
    ensures m.yadop == CreateYadop(r) && m.entities == None
  {
    Module(CreateYadop(r), None)
  }

  /** Every module-declaring record can be converted. */
  predicate ModulesNamed(records: seq<Annotation>)
  {
    forall r :: r in records && IsModuleDecl(r) ==> Named(r)
  }

  /** `getModules`: the module-declaring records, each converted to a module. */
  function GetModules(records: seq<Annotation>): (modules: seq<Module>)
    requires ModulesNamed(records)
    ensures |modules| == |Filter(IsModuleDecl, records)|
  {
    FilterMap(IsModuleDecl, ToModule, records)
  }

  /** getModules yields one module per module-declaring record, and nothing else. */
  lemma ModulesExact(records: seq<Annotation>)
    requires ModulesNamed(records)
    ensures |GetModules(records)| == |Filter(IsModuleDecl, records)|
    ensures forall m :: m in GetModules(records) <==> exists r :: r in records && IsModuleDecl(r) && m == ToModule(r)
  {
    FilterMapMembers(IsModuleDecl, ToModule, records);
  }

  /** Modules come out in the order of their records. */
  lemma ModulesInInputOrder(a: seq<Annotation>, b: seq<Annotation>)
    requires ModulesNamed(a + b)
    ensures ModulesNamed(a) && ModulesNamed(b)
    ensures GetModules(a + b) == GetModules(a) + GetModules(b)
  {
    FilterMapConcat(IsModuleDecl, ToModule, a, b);
  }

  /** Every record of the module can be converted. */
  predicate EntitiesNamed(records: seq<Annotation>, moduleName: Option<string>)
  {
    forall r :: r in records && InModule(r, moduleName) ==> Named(r)
  }

  /** `getEntities`: the records naming the module in a module tag, each converted to an entity. */
  function GetEntities(records: seq<Annotation>, owner: Module): (entities: seq<Entity>)
    requires EntitiesNamed(records, owner.yadop.name)
    ensures |entities| == |Filter((r: Annotation) => InModule(r, owner.yadop.name), records)|
  {
    FilterMap((r: Annotation) => InModule(r, owner.yadop.name), ToEntity, records)
  }

  /**
   * getEntities yields exactly the entities of the records that name the module, whatever their
   * kind: a record naming another module, or a module never declared, is never included.
   */
  lemma EntitiesExact(records: seq<Annotation>, owner: Module)
    requires EntitiesNamed(records, owner.yadop.name)
    ensures forall e :: e in GetEntities(records, owner) <==>
              exists r :: r in records && InModule(r, owner.yadop.name) && e == ToEntity(r)
  {
    FilterMapMembers((r: Annotation) => InModule(r, owner.yadop.name), ToEntity, records);
  }

  /** Entities come out in the order of their records. */
  lemma EntitiesInInputOrder(a: seq<Annotation>, b: seq<Annotation>, owner: Module)
    requires EntitiesNamed(a + b, owner.yadop.name)
    ensures EntitiesNamed(a, owner.yadop.name) && EntitiesNamed(b, owner.yadop.name)
    ensures GetEntities(a + b, owner) == GetEntities(a, owner) + GetEntities(b, owner)
  {
    FilterMapConcat((r: Annotation) => InModule(r, owner.yadop.name), ToEntity, a, b);
  }

  /** Every method-shaped record owned by the entity can be converted. */
  predicate MethodsNamed(records: seq<Annotation>, entityName: Option<string>)
  {
    forall r :: r in records && MethodOfEntity(r, entityName) && IsMethodRecord(r) ==> Named(r)
  }

  /** `getMethods`: the records that refer to the entity, then of those the method-shaped ones. */
  function GetMethods(records: seq<Annotation>, entity: Entity): (methods: seq<Method>)
    requires MethodsNamed(records, entity.yadop.name)
    ensures |methods| == |Filter(IsMethodRecord, Filter((r: Annotation) => MethodOfEntity(r, entity.yadop.name), records))|
  {
    var owned := Filter((r: Annotation) => MethodOfEntity(r, entity.yadop.name), records);
    FilterMembers((r: Annotation) => MethodOfEntity(r, entity.yadop.name), records);
    FilterMap(IsMethodRecord, ToMethod, owned)
  }

  /**
   * getMethods yields exactly the methods of the records that refer to the entity AND are
   * method-shaped: the reference alone is not enough.
   */
  lemma MethodsExact(records: seq<Annotation>, entity: Entity)
    requires MethodsNamed(records, entity.yadop.name)
    ensures forall m :: m in GetMethods(records, entity) <==>
              exists r :: r in records && MethodOfEntity(r, entity.yadop.name) && IsMethodRecord(r) && m == ToMethod(r)
  {
    var owns := (r: Annotation) => MethodOfEntity(r, entity.yadop.name);
    var owned := Filter(owns, records);
    FilterMembers(owns, records);
    FilterMapMembers(IsMethodRecord, ToMethod, owned);
    var methods := GetMethods(records, entity);
    assert methods == FilterMap(IsMethodRecord, ToMethod, owned);
    forall m | m in methods
      ensures exists r :: r in records && MethodOfEntity(r, entity.yadop.name) && IsMethodRecord(r) && m == ToMethod(r)
    {
      var r :| r in owned && IsMethodRecord(r) && m == ToMethod(r);
      assert r in records && owns(r);
    }
    forall r | r in records && MethodOfEntity(r, entity.yadop.name) && IsMethodRecord(r)
      ensures ToMethod(r) in methods
    {
      assert r in owned;
    }
  }

  /** Methods come out in the order of their records. */
  lemma MethodsInInputOrder(a: seq<Annotation>, b: seq<Annotation>, entity: Entity)
    requires MethodsNamed(a + b, entity.yadop.name)
    ensures MethodsNamed(a, entity.yadop.name) && MethodsNamed(b, entity.yadop.name)
    ensures GetMethods(a + b, entity) == GetMethods(a, entity) + GetMethods(b, entity)
  {
    var owns := (r: Annotation) => MethodOfEntity(r, entity.yadop.name);
    FilterConcat(owns, a, b);
    FilterMembers(owns, a + b);
    FilterMembers(owns, a);
    FilterMembers(owns, b);
    FilterMapConcat(IsMethodRecord, ToMethod, Filter(owns, a), Filter(owns, b));
  }

  /** Every record `map` converts carries a name tag. */
  predicate Mappable(records: seq<Annotation>)
  {
    ModulesNamed(records) &&
    (forall m :: m in GetModules(records) ==> EntitiesNamed(records, m.yadop.name)) &&
    (forall m, e :: m in GetModules(records) && e in GetEntities(records, m) ==> MethodsNamed(records, e.yadop.name))
  }

  /** An entity as `map` leaves it: with its methods filled in. */
  function WithMethods(records: seq<Annotation>, e: Entity): (filled: Entity)
    requires MethodsNamed(records, e.yadop.name)
    ensures filled.yadop == e.yadop && filled.kind == e.kind && filled.attributes == e.attributes
    ensures filled.requirements == e.requirements && filled.methods.Some?
  {
    e.(methods := Some(GetMethods(records, e)))
  }

  /** m is the declared module with its entities filled in, in record order, each with its methods filled in. */
  ghost predicate Filled(records: seq<Annotation>, declared: Module, m: Module)
  {
    EntitiesNamed(records, declared.yadop.name) &&
    (forall e :: e in GetEntities(records, declared) ==> MethodsNamed(records, e.yadop.name)) &&
    var members := GetEntities(records, declared);
    m.yadop == declared.yadop && m.entities.Some? && |m.entities.value| == |members| &&
    forall j :: 0 <= j < |members| ==> m.entities.value[j] == WithMethods(records, members[j])
  }

  /** One pass of the outer loop of `map`: sets the module's entities, filling in each entity's methods. */
  method FillModule(records: seq<Annotation>, owner: Module) returns (filled: Module)
    requires EntitiesNamed(records, owner.yadop.name)
    requires forall e :: e in GetEntities(records, owner) ==> MethodsNamed(records, e.yadop.name)
    ensures Filled(records, owner, filled)
  {
    var entities := GetEntities(records, owner);
    ghost var members := entities;
    var j := 0;
    while j < |entities|
      invariant 0 <= j <= |entities| == |members|
      invariant forall k :: j <= k < |entities| ==> entities[k] == members[k]
      invariant forall k :: 0 <= k < j ==> entities[k] == WithMethods(records, members[k])
    {
      assert entities[j] in members;
      entities := entities[j := entities[j].(methods := Some(GetMethods(records, entities[j])))];
      j := j + 1;
    }
    filled := owner.(entities := Some(entities));
  }

  /**
   * `map`: the declared modules in record order, each with its entities filled in and each
   * entity with its methods filled in.
   */
  method Map(records: seq<Annotation>) returns (modules: seq<Module>)
    requires Mappable(records)
    ensures |modules| == |GetModules(records)|
    ensures forall i :: 0 <= i < |modules| ==> Filled(records, GetModules(records)[i], modules[i])
  {
    modules := GetModules(records);
    ghost var declared := modules;
    var i := 0;
    while i < |modules|
      invariant 0 <= i <= |modules| == |declared|
      invariant forall k :: i <= k < |modules| ==> modules[k] == declared[k]
      invariant forall k :: 0 <= k < i ==> Filled(records, declared[k], modules[k])
    {
      assert modules[i] in declared;
      var filled := FillModule(records, modules[i]);
      ghost var prev := modules;
      modules := modules[i := filled];
      forall k | 0 <= k < i + 1
        ensures Filled(records, declared[k], modules[k])
      {
        if k < i {
          assert modules[k] == prev[k];
        }
      }
      i := i + 1;
    }
  }
}
