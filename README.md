# yadop ngdoc mappers in Dafny

yadop turns AngularJS-style documentation comments into a tree of modules, entities and methods.
A comment parser (doctrine) first reduces each comment to a record: an ordered list of tags. Each
tag has a title, an optional description, an optional name, an optional type expression and an
optional default value. The mapper then rebuilds the Module -> Entity -> Method tree from the flat
list of records. Records have no parent pointers. A record joins a module as an entity when it has
a `module` tag naming that module; the older mapper also asks that its ngdoc kind be a known entity
type. It becomes a method of an entity when it has a `methodOf` tag whose description is the
entity's name and also carries a method kind (`function`, `func` or `method`): in the current mapper
as the description of any tag, in the older mapper as the value of an ngdoc tag.

This project models the three files of that mapping:

- `lib/ngdoc/tags.ts` (module `Tags`). These are the title predicates: which aliases make a tag a
  description, param, returns, ngdoc tag and so on. There are also two value tests on a tag's
  description (`method` kinds and `module`).
- `lib/ngdoc/mapper/mapper.ts` (module `Mapper`). This is the current mapper:
  - deprecation is kept as reason text;
  - any entity kind is accepted;
  - component attributes get their binding operator (`@`, `&`, `<`, `=`) split off the description.
- `lib/ngdoc/ngdocMapper.ts` (module `NgdocMapper`). This is the older mapper, which the package
  still exports. It is a separate module:
  - deprecation is a flag;
  - entity kinds are checked against the entity-type enumeration;
  - `Array<A, B>` types are rendered as `A,B[]`;
  - attributes and requires are found by separate lookups over all records.

Supporting modules:
- `Wrappers` holds `Option`. `None` stands for a field that is absent, null or undefined.
- `Doctrine` holds the records, tags and type expressions.
- `Seqs` holds the array pipeline: `some`, `find`, `filter` and `filter(..).map(..)`. It comes with
  lemmas on membership, order and concatenation.
- `Text` holds the string operations. These are the `^[\n\r]+` strip, the `[@&<=]+` first-run
  match, `indexOf`/`replace` with a string pattern, ASCII `toUpperCase` and `join`.
- `Association` holds the name-equality joins.
- `Model` holds the output attribute and return shapes.
- `MapperComparison` relates the two mappers on the same records.
- `MapperExamples` and `NgdocMapperExamples` hold cases adapted from the repository's scenarios or
  constructed, and two general facts about the older mapper's type rendering.

The `map` operation of each mapper fills in the tree with nested `forEach` loops. Each becomes a
method with a loop over the modules (`Map`) and an inner loop over the entities (`FillModule`). They
are proved against the `Filled` predicate, which says how each output module relates to its declared
module and to the records. Every other operation is a pure function of the records. `_getParams`
of the older mapper pushes onto a local array in a loop. It becomes the method
`NgdocMapper.GetParams`, which is proved equal to the function `Params` that `ToMethod` uses.

A conversion in the source throws a TypeError in some cases, for example when a record has no
`name` tag. Such a conversion gets a precondition saying what it reads. The pipeline functions ask
for that precondition only of the records they convert (`ModulesNamed`, `EntitiesNamed`,
`MethodsNamed`/`MethodsConvertible`, `Mappable`).

## Model

| member | source | states |
|---|---|---|
| Tags.OnlyAtTags | lib/ngdoc/tags.ts:94-96 | true exactly when the title equals one of the names, case-sensitively |
| Tags.IsDescription | lib/ngdoc/tags.ts:11-13 | a description tag is titled `description` or `desc` and nothing else |
| Tags.IsDeprecated | lib/ngdoc/tags.ts:20-22 | only the title `deprecated` |
| Tags.IsMethodOf | lib/ngdoc/tags.ts:29-31 | only the title `methodOf` |
| Tags.IsModule | lib/ngdoc/tags.ts:38-40 | only the title `module` |
| Tags.IsName | lib/ngdoc/tags.ts:47-49 | only the title `name` |
| Tags.IsNgdoc | lib/ngdoc/tags.ts:56-58 | the kind marker is titled `ngdoc` or `yadop` |
| Tags.IsParam | lib/ngdoc/tags.ts:65-67 | a param tag is titled `param`, `arg` or `argument` |
| Tags.IsRequires | lib/ngdoc/tags.ts:74-76 | only the title `requires` |
| Tags.IsReturns | lib/ngdoc/tags.ts:83-85 | a returns tag is titled `returns` or `return` |
| Tags.IsMethodValue | lib/ngdoc/tags.ts:105-107 | tests the description, not the title: true exactly when it is `function`, `func` or `method` |
| Tags.IsModuleValue | lib/ngdoc/tags.ts:114-116 | tests the description, not the title: true exactly when it is `module` |
| Tags.DescriptiveRolesFollowTitle | lib/ngdoc/tags.ts:11-49 | the description, deprecated and name predicates agree with an independent title-to-role table, so a tag plays at most one of these roles |
| Tags.PlacementRolesFollowTitle | lib/ngdoc/tags.ts:29-58 | the same for methodOf, module and ngdoc |
| Tags.SignatureRolesFollowTitle | lib/ngdoc/tags.ts:65-85 | the same for param, requires and returns |
| Tags.KindValuesDisjoint | lib/ngdoc/tags.ts:105-116 | no tag passes both value tests: a kind cannot be both `module` and a method kind |
| Text.StripLeadingBreaks | lib/ngdoc/mapper/mapper.ts:145 | the result is a suffix of the input; every character removed is CR or LF, and the result does not start with one |
| Text.BreaksStrippedUnique | lib/ngdoc/mapper/mapper.ts:132 | that characterisation fixes the stripped string uniquely |
| Text.RunStart | lib/ngdoc/mapper/mapper.ts:128 | finds the first binding character at or after a position, with none skipped |
| Text.RunEnd | lib/ngdoc/mapper/mapper.ts:128 | extends a run while the characters are binding characters, and stops at the first that is not |
| Text.BindingRun | lib/ngdoc/mapper/mapper.ts:128 | no match exactly when the string has no `@&<=` character; otherwise the match is the first maximal run of them |
| Text.FirstRunUnique | lib/ngdoc/mapper/mapper.ts:128 | a string has only one first maximal run |
| Text.IndexOf | lib/ngdoc/mapper/mapper.ts:131 | returns the first occurrence at or after the start position, or none when there is no occurrence |
| Text.ReplaceRemovesFirstRun | lib/ngdoc/mapper/mapper.ts:130-131 | replacing the matched run's text removes it at the position the expression matched, since no copy of it occurs earlier |
| Text.Upper | lib/ngdoc/ngdocMapper.ts:38 | upper-casing keeps the length and maps each character (a-z to A-Z) |
| Text.JoinSnoc | lib/ngdoc/ngdocMapper.ts:73-75 | `join()` of one more part appends the comma and that part to the join of the others |
| Seqs.FindAfterFilter | lib/ngdoc/ngdocMapper.ts:48-50 | `filter(p).find(q)` yields the first element that passes both p and q |
| Seqs.FilterFilterEmpty | lib/ngdoc/ngdocMapper.ts:142-144 | two `filter` calls in a row leave nothing exactly when no element passes both, so `.filter(p).filter(q).length > 0` asks for one element passing both |
| Seqs.FilterMapMembers | lib/ngdoc/mapper/mapper.ts:66-70 | `filter(p).map(f)` yields exactly the images of the elements that pass p |
| Seqs.FilterMapConcat | lib/ngdoc/mapper/mapper.ts:66-70 | `filter(p).map(f)` distributes over concatenation, so it keeps input order |
| Association.InModule | lib/ngdoc/ngdocMapper.ts:152-155 | `filter(module tag).filter(name === module name).length > 0` is true exactly when some `module` tag carries the module's name (the same filter is inline at lib/ngdoc/mapper/mapper.ts:38-41) |
| Association.MethodOfEntity | lib/ngdoc/ngdocMapper.ts:163-166 | true exactly when some `methodOf` tag's description is the entity's name (inline at lib/ngdoc/mapper/mapper.ts:52-55) |
| Mapper.IsModuleDecl | lib/ngdoc/mapper/mapper.ts:68-69 | true exactly when some tag, whatever its title, has the description `module` |
| Mapper.IsMethodRecord | lib/ngdoc/mapper/mapper.ts:56-58 | true exactly when some tag, whatever its title, has a method kind as description |
| Mapper.CreateYadop | lib/ngdoc/mapper/mapper.ts:209-224 | name from the first `name` tag; description and deprecation reason from the first tag of each role, absent when there is no such tag |
| Mapper.ToAttributeType | lib/ngdoc/mapper/mapper.ts:138-155 | optional iff the type is OptionalType; type set only for an optional NameExpression (its inner name); default copied only when optional; leading CR/LF stripped from a non-empty description; no binding |
| Mapper.ExtractBinding | lib/ngdoc/mapper/mapper.ts:127-135 | changes only description and binding; the binding is the first maximal `@&<=` run, and the description is the text with that run cut out and leading breaks stripped; with no description or no operator the attribute is unchanged |
| Mapper.LeadingBindingExtracted | lib/ngdoc/mapper/mapper.ts:123-136 | an operator run on its own first line becomes the binding, and the following text is kept whole, including any later operator characters |
| Mapper.GetAttributes | lib/ngdoc/mapper/mapper.ts:118-121 | one attribute per param tag, in tag order |
| Mapper.GetBindings | lib/ngdoc/mapper/mapper.ts:123-136 | one attribute per plain attribute; attribute i is plain attribute i after `ExtractBinding` (its first operator run becomes the binding and is cut from the description), and so declares the same name, optionality, type and default |
| Mapper.GetRequires | lib/ngdoc/mapper/mapper.ts:110-111 | the name of every requires tag, in tag order |
| Mapper.GetReturn | lib/ngdoc/mapper/mapper.ts:78-91 | absent exactly when there is no returns tag; otherwise its name is the first returns tag's description and its type the raw name of that tag's type |
| Mapper.ToEntity | lib/ngdoc/mapper/mapper.ts:163-176 | the kind is the first ngdoc tag's description; attributes come from binding extraction for `component` and plain extraction otherwise, and are unset exactly when there is no ngdoc tag; requires is always set |
| Mapper.ToMethod | lib/ngdoc/mapper/mapper.ts:184-197 | returns from the first returns tag; params set exactly when some tag is a param, and then the plain attributes |
| Mapper.ToModule | lib/ngdoc/mapper/mapper.ts:205-207 | the shared fields, no entities |
| Mapper.GetModules | lib/ngdoc/mapper/mapper.ts:66-70 | one module per module-declaring record (membership and order: `ModulesExact`, `ModulesInInputOrder`) |
| Mapper.ModulesExact | lib/ngdoc/mapper/mapper.ts:66-70 | one module per record that has a tag valued `module`, and nothing else |
| Mapper.ModulesInInputOrder | lib/ngdoc/mapper/mapper.ts:66-70 | modules come out in record order |
| Mapper.GetEntities | lib/ngdoc/mapper/mapper.ts:36-42 | one entity per record of the module (membership and order: `EntitiesExact`, `EntitiesInInputOrder`) |
| Mapper.EntitiesExact | lib/ngdoc/mapper/mapper.ts:36-42 | exactly the entities of the records with a `module` tag naming the module, whatever their kind; a record naming another or an undeclared module never lands here |
| Mapper.EntitiesInInputOrder | lib/ngdoc/mapper/mapper.ts:36-42 | entities come out in record order |
| Mapper.GetMethods | lib/ngdoc/mapper/mapper.ts:50-59 | one method per record that refers to the entity and is method-shaped (membership and order: `MethodsExact`, `MethodsInInputOrder`) |
| Mapper.MethodsExact | lib/ngdoc/mapper/mapper.ts:50-59 | exactly the methods of the records that refer to the entity and also carry a method kind; a `methodOf` reference alone is not enough |
| Mapper.MethodsInInputOrder | lib/ngdoc/mapper/mapper.ts:50-59 | methods come out in record order |
| Mapper.FillModule | lib/ngdoc/mapper/mapper.ts:20-27 | the module keeps its fields and gets its entities in record order, each with its methods filled in |
| Mapper.Map | lib/ngdoc/mapper/mapper.ts:18-28 | one output module per declared module, in order, each filled as above |
| MapperExamples.RequiresExample | lib/ngdoc/mapper/mapper.ts:110-111 | requires keep tag order and keep a repeated name twice |
| NgdocMapper.ExistingEntityType | lib/ngdoc/ngdocMapper.ts:38 | a kind is an entity type exactly when its upper-cased text is a key of the enumeration |
| NgdocMapper.DeclaresModule | lib/ngdoc/ngdocMapper.ts:142-144 | true exactly when some ngdoc tag has the value `module` |
| NgdocMapper.NamesEntity | lib/ngdoc/ngdocMapper.ts:174-176 | true exactly when some tag titled `name` carries the entity's name |
| NgdocMapper.DeclaresMethod | lib/ngdoc/ngdocMapper.ts:184-187 | true exactly when some ngdoc tag has a method kind as value |
| NgdocMapper.HasRequires | lib/ngdoc/ngdocMapper.ts:195-197 | true exactly when some tag is a requires tag |
| NgdocMapper.ValidEntityType | lib/ngdoc/ngdocMapper.ts:205-208 | true exactly when some ngdoc tag's kind is an entity type |
| NgdocMapper.TypeNameFor | lib/ngdoc/ngdocMapper.ts:71-79 | a type name exists exactly for a NameExpression, where it is that name, or for an `Array` application, where it ends in `[]` |
| NgdocMapper.ArrayOfOneName | lib/ngdoc/ngdocMapper.ts:71-76 | `Array<T>` is rendered `T[]` for every name T |
| NgdocMapper.ArrayOfMoreNames | lib/ngdoc/ngdocMapper.ts:71-76 | each further named argument goes in before the `[]` after a comma, so `Array<A1, ..., An>` is rendered `A1,...,An[]` |
| NgdocMapper.ToAttribute | lib/ngdoc/ngdocMapper.ts:54-82 | name and description copied as they are; optional iff OptionalType; the type name is taken after removing one optional layer; no default and no binding |
| NgdocMapper.GetAttributes | lib/ngdoc/ngdocMapper.ts:47-85 | attributes exist only when some record of the module names the entity (which record: `AttributesFromFirstRecord`, `NoAttributesWithoutRecord`) |
| NgdocMapper.AttributesFromFirstRecord | lib/ngdoc/ngdocMapper.ts:47-85 | the attributes are the params of the first record in the module with a `name` tag carrying the entity's name, in tag order |
| NgdocMapper.NoAttributesWithoutRecord | lib/ngdoc/ngdocMapper.ts:47-85 | with no such record there are no attributes |
| NgdocMapper.GetRequires | lib/ngdoc/ngdocMapper.ts:124-134 | requires exist only when some record names the entity and has a requires tag (which record: `RequiresFromFirstRecord`, `NoRequiresWithoutRecord`) |
| NgdocMapper.RequiresFromFirstRecord | lib/ngdoc/ngdocMapper.ts:124-134 | the requires are the requires names of the first record in any module that names the entity and has a requires tag, in tag order |
| NgdocMapper.NoRequiresWithoutRecord | lib/ngdoc/ngdocMapper.ts:124-134 | with no such record there are no requires |
| NgdocMapper.ParamOf | lib/ngdoc/ngdocMapper.ts:220-228 | name and description as they are; the type is the raw name, so an optional type gives none |
| NgdocMapper.Params | lib/ngdoc/ngdocMapper.ts:216-232 | one parameter per param tag, in tag order: parameter k is `ParamOf` of the k-th param tag |
| NgdocMapper.GetParams | lib/ngdoc/ngdocMapper.ts:216-232 | one parameter per param tag, in tag order, equal to the `Params` value `ToMethod` uses |
| NgdocMapper.GetReturn | lib/ngdoc/ngdocMapper.ts:240-253 | absent exactly when there is no returns tag; otherwise built from the first one |
| NgdocMapper.ToEntity | lib/ngdoc/ngdocMapper.ts:261-275 | name and kind from the first tags of their role; deprecated is true iff a deprecated tag exists; description only when a description tag exists; nothing else set |
| NgdocMapper.ToMethod | lib/ngdoc/ngdocMapper.ts:283-302 | deprecated is a flag; returns from the first returns tag; params set exactly when some tag is a param |
| NgdocMapper.ToModule | lib/ngdoc/ngdocMapper.ts:310-312 | only the name |
| NgdocMapper.GetModules | lib/ngdoc/ngdocMapper.ts:114-116 | one module per record declaring one (membership and order: `ModulesExact`, `ModulesInInputOrder`) |
| NgdocMapper.ModulesExact | lib/ngdoc/ngdocMapper.ts:114-116 | one module per record with an ngdoc tag valued `module`, and nothing else |
| NgdocMapper.ModulesInInputOrder | lib/ngdoc/ngdocMapper.ts:114-116 | modules come out in record order |
| NgdocMapper.GetEntities | lib/ngdoc/ngdocMapper.ts:93-96 | one entity per record of the module with a known entity type; the two filters are applied as one conjunction (membership and order: `EntitiesExact`, `EntitiesInInputOrder`) |
| NgdocMapper.EntitiesExact | lib/ngdoc/ngdocMapper.ts:93-96 | exactly the records naming the module whose ngdoc kind, upper-cased, is a known entity type; others (such as `invalid-type`) are dropped |
| NgdocMapper.EntitiesInInputOrder | lib/ngdoc/ngdocMapper.ts:93-96 | entities come out in record order |
| NgdocMapper.GetMethods | lib/ngdoc/ngdocMapper.ts:104-107 | one method per record referring to the entity that declares a method (membership and order: `MethodsExact`, `MethodsInInputOrder`) |
| NgdocMapper.MethodsExact | lib/ngdoc/ngdocMapper.ts:104-107 | exactly the records referring to the entity that have an ngdoc tag with a method kind |
| NgdocMapper.MethodsInInputOrder | lib/ngdoc/ngdocMapper.ts:104-107 | methods come out in record order |
| NgdocMapper.FillModule | lib/ngdoc/ngdocMapper.ts:20-28 | the module's entities in record order, each with methods, attributes and requires filled in |
| NgdocMapper.Map | lib/ngdoc/ngdocMapper.ts:18-30 | one output module per declared module, in order, each filled as above |
| NgdocMapperExamples.ArrayOfTwoExample | lib/ngdoc/ngdocMapper.ts:71-76 | `Array<A, B>` is rendered `A,B[]` |
| NgdocMapperExamples.OptionalArrayExample | lib/ngdoc/ngdocMapper.ts:64-79 | `Array<Object>=` is optional with type `Object[]` |
| NgdocMapperExamples.OneOptionalLayerRemoved | lib/ngdoc/ngdocMapper.ts:66-69 | only one optional layer is removed |
| NgdocMapperExamples.NonArrayApplicationUntyped | lib/ngdoc/ngdocMapper.ts:71-77 | an application over anything but `Array` has no type |
| MapperComparison.MethodMarkerWidened | lib/ngdoc/ngdocMapper.ts:184-187 | a record the older mapper takes as a method, the current one does too |
| MapperComparison.MethodMarkerNotNarrowed | lib/ngdoc/mapper/mapper.ts:56-58 | the converse fails: a description reading `method` makes a method record only in the current mapper |
| MapperComparison.ModuleMarkerWidened | lib/ngdoc/ngdocMapper.ts:142-144 | a module declaration in the older mapper is one in the current mapper too |
| MapperComparison.AttributeTypesCompared | lib/ngdoc/mapper/mapper.ts:147-153 | the two mappers agree on optionality and on the type of an optional name; for a plain name only the older one records a type |
| MapperComparison.DeprecationCompared | lib/ngdoc/ngdocMapper.ts:262-268 | a deprecation reason in the current mapper implies the older mapper's flag |

## Left out

- Null and undefined: `Option`'s `None` stands for both. The source's `===` comparisons (a tag's
  name against a module's name, a `methodOf` description against an entity's name) would tell a
  null field from an undefined one. The model treats them as equal.
- Throwing conversions: the source throws a TypeError where a conversion reads a tag that is
  missing. That is a record without a `name` tag (both mappers), or a method record without a
  description tag in the older mapper. The model makes these preconditions and does not model the
  exception.
- NgdocMapper.ExistingEntityType: a kind tag with a null description counts as not an entity type. The source would throw when it upper-cases null.
- NgdocMapper.ToAttribute, NgdocMapper.ParamOf, NgdocMapper.GetParams, NgdocMapper.GetReturn: a missing type counts as null. The source tests `tag.type !== null` (lib/ngdoc/ngdocMapper.ts:64, 226 and 248), so an undefined type would throw in `getAttributes` and reach `.name` of undefined in `_getParams` and `_getReturn`.
- The entity-type enumeration (`lib/ngdoc/model/entityType.ts`) is not part of this model. Its keys are the `entityTypes` parameter of the older mapper.
- Text.Upper: upper-cases only the letters a to z. JavaScript's `toUpperCase` covers all of Unicode, and some of its mappings change the length.
- `_getBindings` when the description is undefined: the source passes `undefined` to `RegExp.exec`, which looks at the string "undefined". The model treats it as "no binding". Both yield the same result, since that string holds no operator character.
- Regular expressions are not interpreted. `/^[\n\r]+/` and `/([@&<=]+)/` are written out as character scans.
- Processors, file globbing, reading files, the espree JavaScript parser and the doctrine comment parser are not part of this model. The mappers start from records that are already parsed.
- In-place updates: both `map` methods and `_getBindings` update objects in place. The model updates values. No object is shared between two places in the output, so aliasing has no visible effect there. Aliasing with objects the caller still holds is not modelled.
- Where the repository's scenarios disagree with the code, the model follows the code:
  - `lib/ngdoc/ngdocMapper.spec.ts` expects deprecation text from the older mapper, which sets a boolean.
  - The same file expects `getEntities` to return attributes and requires, which only `map` fills in.
  - It expects entities and methods with no `deprecated` field. The code always sets the flag.
