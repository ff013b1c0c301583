/**
 * The projection of a YAML CloudFormation template onto resources, parameters and Lambda
 * environment variables. The host IDE's YAML syntax tree is replaced by the small datatype
 * below; a template is valid when its file has a single document whose top-level value is a
 * mapping, and every lookup is a search of the first key-value with a given key.
 */
module YamlCloudFormationTemplate {
  import opened Wrappers
  import Sequences

  /** A YAML value: a scalar, a mapping, or any other node (a sequence, ...) with its children. */
  datatype YamlNode =
    | Scalar(textValue: string)
    | Mapping(mapping: YamlMapping)
    | Other(text: string, children: seq<YamlNode>)

  /** A YAML mapping: its key-values in document order. */
  datatype YamlMapping = YamlMapping(keyValues: seq<KeyValue>)

  /** `key: value`; the value is absent for `key:` with nothing after it. */
  datatype KeyValue = KeyValue(keyText: string, value: Option<YamlNode>)

  datatype YamlDocument = YamlDocument(topLevelValue: Option<YamlNode>)

  datatype YamlFile = YamlFile(documents: seq<YamlDocument>)

  /** The exceptions the template adapter throws, named after their message keys. */
  datatype TemplateError =
    | TooManyDocuments                               // cloudformation.yaml.too_many_documents
    | InvalidRootType                                // cloudformation.yaml.invalid_root_type
    | MissingProperty(key: string, logicalName: string)  // cloudformation.missing_property
    | KeyNotFound(key: string, logicalName: string)  // cloudformation.key_not_found
    | NotImplemented                                 // NotImplementedError
    | NotAMapping(keyText: string)                   // the failing cast `value as YAMLMapping`

  /** `YAMLMapping.getKeyValueByKey(key)`: the first key-value with that key, or `null`. */
  function GetKeyValueByKey(m: YamlMapping, key: string): (r: Option<KeyValue>)
    ensures r.None? <==> forall i | 0 <= i < |m.keyValues| :: m.keyValues[i].keyText != key
    ensures r.Some? ==> exists i | 0 <= i < |m.keyValues| ::
      && m.keyValues[i] == r.value && r.value.keyText == key
      && forall j | 0 <= j < i :: m.keyValues[j].keyText != key
    decreases |m.keyValues|
  {
    if m.keyValues == [] then None
    else if m.keyValues[0].keyText == key then Some(m.keyValues[0])
    else
      var tail := YamlMapping(m.keyValues[1..]);
      var r := GetKeyValueByKey(tail, key);
      if r.Some? then
        var i :| 0 <= i < |tail.keyValues| && tail.keyValues[i] == r.value && r.value.keyText == key
          && forall j | 0 <= j < i :: tail.keyValues[j].keyText != key;
        assert m.keyValues[i + 1] == r.value;
        r
      else r
  }

  /**
   * `YAMLKeyValue.valueText`: a scalar's text value, another node's text, and `""` for an
   * absent value. The host renders a mapping value in its own way; the model gives `""`.
   */
  function ValueText(kv: KeyValue): string {
    match kv.value
    case Some(Scalar(t)) => t
    case Some(Other(t, _)) => t
    case _ => ""
  }

  /** The key-value's value is present and a mapping. */
  predicate HasMappingValue(kv: KeyValue) {
    kv.value.Some? && kv.value.value.Mapping?
  }

  /** `childMapping(keyName)`: the value under `keyName` when that value is a mapping. */
  function ChildMapping(m: YamlMapping, keyName: string): (r: Option<YamlMapping>)
    ensures r.Some? <==> GetKeyValueByKey(m, keyName).Some? && HasMappingValue(GetKeyValueByKey(m, keyName).value)
    ensures r.Some? ==> GetKeyValueByKey(m, keyName).value.value == Some(Mapping(r.value))
  {
    match GetKeyValueByKey(m, keyName)
    case Some(KeyValue(_, Some(Mapping(c)))) => Some(c)
    case _ => None
  }

  /** The first mapping met in a pre-order walk of `nodes`, not looking inside mappings. */
  function FirstMappingAmong(nodes: seq<YamlNode>): Option<YamlMapping>
    decreases nodes
  {
    if nodes == [] then None
    else
      match nodes[0]
      case Mapping(m) => Some(m)
      case Scalar(_) => FirstMappingAmong(nodes[1..])
      case Other(_, children) =>
        var inner := FirstMappingAmong(children);
        if inner.Some? then inner else FirstMappingAmong(nodes[1..])
  }

  /**
   * `PsiTreeUtil.findChildOfAnyType(keyValue, YAMLMapping)`: the first mapping below the key-value,
   * which is its value itself when that is a mapping.
   */
  function FindChildMapping(kv: KeyValue): (r: Option<YamlMapping>)
    ensures HasMappingValue(kv) ==> r == Some(kv.value.value.mapping)
    ensures kv.value.None? || kv.value.value.Scalar? ==> r == None
  {
    match kv.value
    case None => None
    case Some(Mapping(m)) => Some(m)
    case Some(Scalar(_)) => None
    case Some(Other(_, children)) => FirstMappingAmong(children)
  }

  /** A Lambda environment variable: a literal value, or the logical name a `Ref` points to. */
  datatype YamlVariable = YamlVariable(variableName: string, isScalarValue: bool, variableValue: string) {
    /** `isReference()`. */
    predicate IsReference() {
      !isScalarValue
    }
  }

  /**
   * `asEnvironmentVariable()`: a scalar value is a literal carrying its text; a mapping whose
   * `Ref` is a scalar is a reference carrying that scalar's text; anything else is no variable.
   */
  function AsEnvironmentVariable(kv: KeyValue): (r: Option<YamlVariable>)
    ensures r.Some? ==> r.value.variableName == kv.keyText
    ensures (r.Some? && !r.value.IsReference()) <==> kv.value.Some? && kv.value.value.Scalar?
    ensures r.Some? && !r.value.IsReference() ==> r.value.variableValue == kv.value.value.textValue
    ensures r.Some? && r.value.IsReference() <==>
      && kv.value.Some? && kv.value.value.Mapping?
      && GetKeyValueByKey(kv.value.value.mapping, "Ref").Some?
      && GetKeyValueByKey(kv.value.value.mapping, "Ref").value.value.Some?
      && GetKeyValueByKey(kv.value.value.mapping, "Ref").value.value.value.Scalar?
    ensures r.Some? && r.value.IsReference() ==>
      r.value.variableValue == GetKeyValueByKey(kv.value.value.mapping, "Ref").value.value.value.textValue
  {
    match kv.value
    case Some(Scalar(t)) => Some(YamlVariable(kv.keyText, true, t))
    case Some(Mapping(m)) =>
      (match GetKeyValueByKey(m, "Ref")
       case Some(KeyValue(_, Some(Scalar(t)))) => Some(YamlVariable(kv.keyText, false, t))
       case _ => None)
    case _ => None
  }

  /** `mapNotNull { it.asEnvironmentVariable() }`. */
  function EnvironmentVariablesOf(kvs: seq<KeyValue>): (r: seq<YamlVariable>)
    ensures |r| <= |kvs|
    ensures |kvs| == 1 ==> r == if AsEnvironmentVariable(kvs[0]).Some? then [AsEnvironmentVariable(kvs[0]).value] else []
  {
    if kvs == [] then []
    else
      var rest := EnvironmentVariablesOf(kvs[1..]);
      match AsEnvironmentVariable(kvs[0])
      case Some(v) => [v] + rest
      case None => rest
  }

  /** Exactly the key-values that convert to a variable contribute one, and nothing else does. */
  lemma {:induction false} EnvironmentVariablesOfMembers(kvs: seq<KeyValue>)
    ensures forall v | v in EnvironmentVariablesOf(kvs) :: exists kv | kv in kvs :: AsEnvironmentVariable(kv) == Some(v)
    ensures forall kv | kv in kvs && AsEnvironmentVariable(kv).Some? :: AsEnvironmentVariable(kv).value in EnvironmentVariablesOf(kvs)
  {
    if kvs != [] {
      EnvironmentVariablesOfMembers(kvs[1..]);
      assert forall kv | kv in kvs :: kv == kvs[0] || kv in kvs[1..];
      assert forall kv | kv in kvs[1..] :: kv in kvs;
    }
  }

  /**
   * `mapNotNull` keeps the document order: the variables of consecutive key-values are those of
   * the first part followed by those of the second.
   */
  lemma {:induction false} EnvironmentVariablesOfAppend(a: seq<KeyValue>, b: seq<KeyValue>)
    ensures EnvironmentVariablesOf(a + b) == EnvironmentVariablesOf(a) + EnvironmentVariablesOf(b)
  {
    if a == [] {
      assert a + b == b;
    } else {
      var ab := a + b;
      assert ab[0] == a[0] && ab[1..] == a[1..] + b;
      EnvironmentVariablesOfCons(a);
      EnvironmentVariablesOfCons(ab);
      EnvironmentVariablesOfAppend(a[1..], b);
      Sequences.ConcatAssociative(EnvironmentVariablesOf([a[0]]), EnvironmentVariablesOf(a[1..]), EnvironmentVariablesOf(b));
    }
  }

  /** The first key-value contributes its variables ahead of the rest. */
  lemma EnvironmentVariablesOfCons(kvs: seq<KeyValue>)
    requires kvs != []
    ensures EnvironmentVariablesOf(kvs) == EnvironmentVariablesOf([kvs[0]]) + EnvironmentVariablesOf(kvs[1..])
  {
    assert [kvs[0]][0] == kvs[0];
  }



  /**
   * A resource: its logical name, the mapping that defines it, and the typed wrapper chosen for it
   * from the resource-type registry (`RESOURCE_MAPPINGS`), if its type is registered.
   */
  datatype Resource = Resource(logicalName: string, delegate: YamlMapping, typedAs: Option<string>) {

    /** `type()`: the text of the `Type` key, or `null` without one. */
    function Type(): (r: Option<string>)
      ensures r.None? <==> GetKeyValueByKey(delegate, "Type").None?
      ensures forall t :: r == Some(t) <==> exists i | 0 <= i < |delegate.keyValues| ::
        && delegate.keyValues[i].keyText == "Type" && ValueText(delegate.keyValues[i]) == t
        && forall j | 0 <= j < i :: delegate.keyValues[j].keyText != "Type"
    {
      match GetKeyValueByKey(delegate, "Type")
      case Some(kv) => Some(ValueText(kv))
      case None => None
    }

    /** `isType(requestedType)`: whether the first `Type` key has exactly that text. */
    predicate IsType(requestedType: string)
      ensures IsType(requestedType) <==> exists i | 0 <= i < |delegate.keyValues| ::
        && delegate.keyValues[i].keyText == "Type" && ValueText(delegate.keyValues[i]) == requestedType
        && forall j | 0 <= j < i :: delegate.keyValues[j].keyText != "Type"
    {
      Type() == Some(requestedType)
    }

    /** `properties()`: the `Properties` mapping; its absence is an error naming this resource. */
    function Properties(): (r: Result<YamlMapping, TemplateError>)
      ensures r.Failure? ==> r.error == KeyNotFound("Properties", logicalName)
      ensures r.Success? <==> ChildMapping(delegate, "Properties").Some?
      ensures r.Success? ==> ChildMapping(delegate, "Properties") == Some(r.value)
    {
      match ChildMapping(delegate, "Properties")
      case Some(m) => Success(m)
      case None => Failure(KeyNotFound("Properties", logicalName))
    }

    /** `getOptionalScalarProperty(key)`: the text under `key` in `Properties`, or `null`. */
    function GetOptionalScalarProperty(key: string): (r: Result<Option<string>, TemplateError>)
      ensures r.Failure? <==> Properties().Failure?
      ensures r.Failure? ==> r.error == KeyNotFound("Properties", logicalName)
      ensures forall v :: r == Success(Some(v)) <==> Properties().Success? && exists i | 0 <= i < |Properties().value.keyValues| ::
        && Properties().value.keyValues[i].keyText == key && ValueText(Properties().value.keyValues[i]) == v
        && forall j | 0 <= j < i :: Properties().value.keyValues[j].keyText != key
    {
      match Properties()
      case Failure(e) => Failure(e)
      case Success(props) =>
        match GetKeyValueByKey(props, key)
        case Some(kv) => Success(Some(ValueText(kv)))
        case None => Success(None)
    }

    /** `getScalarProperty(key)`: the optional property, or an error naming the key and resource. */
    function GetScalarProperty(key: string): (r: Result<string, TemplateError>)
      ensures r.Success? <==> GetOptionalScalarProperty(key).Success? && GetOptionalScalarProperty(key).value.Some?
      ensures r.Success? ==> GetOptionalScalarProperty(key) == Success(Some(r.value))
      ensures GetOptionalScalarProperty(key) == Success(None) ==> r == Failure(MissingProperty(key, logicalName))
      ensures GetOptionalScalarProperty(key).Failure? ==> r == Failure(KeyNotFound("Properties", logicalName))
    {
      match GetOptionalScalarProperty(key)
      case Failure(e) => Failure(e)
      case Success(Some(v)) => Success(v)
      case Success(None) => Failure(MissingProperty(key, logicalName))
    }

    /**
     * `setScalarProperty(key, value)`: `putKeyValue` of a new scalar key-value into `Properties`,
     * which replaces the first key-value with that key or else is appended. The generated
     * key-value is taken to be a plain scalar whose text is `value`.
     */
    function SetScalarProperty(key: string, value: string): (r: Result<Resource, TemplateError>)
      ensures r.Failure? <==> Properties().Failure?
      ensures r.Success? ==> r.value.logicalName == logicalName && r.value.typedAs == typedAs
      ensures r.Success? ==> forall k | k != "Properties" :: GetKeyValueByKey(r.value.delegate, k) == GetKeyValueByKey(delegate, k)
    {
      match Properties()
      case Failure(e) => Failure(e)
      case Success(props) =>
        var props' := PutKeyValue(props, KeyValue(key, Some(Scalar(value))));
        Success(this.(delegate := ReplaceValue(delegate, "Properties", Mapping(props'))))
    }

    /**
     * `getEnvironmentVariables()`: the variables under `Properties.Environment.Variables`, none
     * when that is not a chain of mappings, and an error when `Properties` is missing.
     */
    function GetEnvironmentVariables(): (r: Result<seq<YamlVariable>, TemplateError>)
      ensures r.Failure? <==> Properties().Failure?
      ensures r.Failure? ==> r.error == KeyNotFound("Properties", logicalName)
      ensures Properties().Success? && ChildMapping(Properties().value, "Environment").Some? &&
              ChildMapping(ChildMapping(Properties().value, "Environment").value, "Variables").Some? ==>
        r == Success(EnvironmentVariablesOf(
               ChildMapping(ChildMapping(Properties().value, "Environment").value, "Variables").value.keyValues))
    {
      match Properties()
      case Failure(e) => Failure(e)
      case Success(props) =>
        match ChildMapping(props, "Environment")
        case None => Success([])
        case Some(env) =>
          match ChildMapping(env, "Variables")
          case None => Success([])
          case Some(vars) => Success(EnvironmentVariablesOf(vars.keyValues))
    }
  }

  /** `YAMLMapping.putKeyValue(kv)`: replaces the first key-value with the same key, or appends. */
  function PutKeyValue(m: YamlMapping, kv: KeyValue): (r: YamlMapping)
    ensures GetKeyValueByKey(r, kv.keyText) == Some(kv)
    ensures forall k | k != kv.keyText :: GetKeyValueByKey(r, k) == GetKeyValueByKey(m, k)
    decreases |m.keyValues|
  {
    if m.keyValues == [] then YamlMapping([kv])
    else if m.keyValues[0].keyText == kv.keyText then YamlMapping([kv] + m.keyValues[1..])
    else
      var rest := PutKeyValue(YamlMapping(m.keyValues[1..]), kv);
      var r := YamlMapping([m.keyValues[0]] + rest.keyValues);
      assert YamlMapping(r.keyValues[1..]) == rest;
      r
  }

  /** Replaces the value of the first key-value with key `key` (there is one in every use). */
  function ReplaceValue(m: YamlMapping, key: string, node: YamlNode): (r: YamlMapping)
    ensures GetKeyValueByKey(m, key).Some? ==> GetKeyValueByKey(r, key) == Some(KeyValue(key, Some(node)))
    ensures forall k | k != key :: GetKeyValueByKey(r, k) == GetKeyValueByKey(m, k)
    decreases |m.keyValues|
  {
    if m.keyValues == [] then m
    else if m.keyValues[0].keyText == key then YamlMapping([KeyValue(key, Some(node))] + m.keyValues[1..])
    else
      var rest := ReplaceValue(YamlMapping(m.keyValues[1..]), key, node);
      var r := YamlMapping([m.keyValues[0]] + rest.keyValues);
      assert YamlMapping(r.keyValues[1..]) == rest;
      r
  }

  /** A template parameter: its logical name and the mapping that defines it. */
  datatype Parameter = Parameter(logicalName: string, delegate: YamlMapping) {

    /** `getOptionalScalarProperty(key)`: the text under `key` in the parameter itself, or `null`. */
    function GetOptionalScalarProperty(key: string): (r: Option<string>)
      ensures forall v :: r == Some(v) <==> exists i | 0 <= i < |delegate.keyValues| ::
        && delegate.keyValues[i].keyText == key && ValueText(delegate.keyValues[i]) == v
        && forall j | 0 <= j < i :: delegate.keyValues[j].keyText != key
    {
      match GetKeyValueByKey(delegate, key)
      case Some(kv) => Some(ValueText(kv))
      case None => None
    }

    /** `getScalarProperty(key)`: the optional property, or an error naming the key and parameter. */
    function GetScalarProperty(key: string): (r: Result<string, TemplateError>)
      ensures r.Success? <==> GetOptionalScalarProperty(key).Some?
      ensures r.Success? ==> GetOptionalScalarProperty(key) == Some(r.value)
      ensures r.Failure? ==> r.error == MissingProperty(key, logicalName)
    {
      match GetOptionalScalarProperty(key)
      case Some(v) => Success(v)
      case None => Failure(MissingProperty(key, logicalName))
    }

    /** `setScalarProperty(key, value)`: not implemented for parameters. */
    function SetScalarProperty(key: string, value: string): (r: Result<Parameter, TemplateError>)
      ensures r == Failure(NotImplemented)
    {
      Failure(NotImplemented)
    }
  }

  /**
   * `asResource()` on a key-value whose nearest enclosing key-value has key `parentKey` (`None`
   * at the top level): a resource named by the key inside `Resources`, typed through `registry`
   * when its type is registered; no resource elsewhere.
   */
  function AsResource(parentKey: Option<string>, kv: KeyValue, registry: map<string, string>): (r: Result<Option<Resource>, TemplateError>)
    ensures parentKey != Some("Resources") <==> r == Success(None)
    ensures r.Success? && r.value.Some? ==>
      && r.value.value.logicalName == kv.keyText
      && kv.value == Some(Mapping(r.value.value.delegate))
      && var t := r.value.value.Type();
         r.value.value.typedAs == if t.Some? && t.value in registry then Some(registry[t.value]) else None
    ensures r.Failure? <==> parentKey == Some("Resources") && !HasMappingValue(kv)
  {
    if parentKey == Some("Resources") then
      match kv.value
      case Some(Mapping(m)) =>
        var lowLevel := Resource(kv.keyText, m, None);
        var t := lowLevel.Type();
        if t.Some? && t.value in registry then Success(Some(lowLevel.(typedAs := Some(registry[t.value]))))
        else Success(Some(lowLevel))
      case _ => Failure(NotAMapping(kv.keyText))
    else
      Success(None)
  }

  /** `asProperty()`: a parameter named by the key inside `Parameters`; nothing elsewhere. */
  function AsProperty(parentKey: Option<string>, kv: KeyValue): (r: Result<Option<Parameter>, TemplateError>)
    ensures parentKey != Some("Parameters") <==> r == Success(None)
    ensures r.Success? && r.value.Some? ==> r.value.value.logicalName == kv.keyText && kv.value == Some(Mapping(r.value.value.delegate))
    ensures r.Failure? <==> parentKey == Some("Parameters") && !HasMappingValue(kv)
  {
    if parentKey == Some("Parameters") then
      match kv.value
      case Some(Mapping(m)) => Success(Some(Parameter(kv.keyText, m)))
      case _ => Failure(NotAMapping(kv.keyText))
    else
      Success(None)
  }

  /** A syntax-tree element handed to `convertPsiToResource`. */
  datatype PsiElement = KeyValueElement(parentKey: Option<string>, kv: KeyValue) | OtherElement

  /** `convertPsiToResource(psiElement)`: `asResource()` of a key-value; `null` for anything else. */
  function ConvertPsiToResource(element: PsiElement, registry: map<string, string>): (r: Result<Option<Resource>, TemplateError>)
    ensures element.OtherElement? ==> r == Success(None)
    ensures element.KeyValueElement? ==> r == AsResource(element.parentKey, element.kv, registry)
  {
    match element
    case OtherElement => Success(None)
    case KeyValueElement(parentKey, kv) => AsResource(parentKey, kv, registry)
  }

  /**
   * `mapNotNull { it.asResource() }` over the key-values of the mapping under `parentKey`, consumed
   * in full: the first failing conversion is the outcome.
   */
  function ResourcesOf(parentKey: Option<string>, kvs: seq<KeyValue>, registry: map<string, string>): Result<seq<Resource>, TemplateError> {
    if kvs == [] then Success([])
    else
      match AsResource(parentKey, kvs[0], registry)
      case Failure(e) => Failure(e)
      case Success(first) =>
        match ResourcesOf(parentKey, kvs[1..], registry)
        case Failure(e) => Failure(e)
        case Success(rest) => Success(if first.Some? then [first.value] + rest else rest)
  }

  /** `mapNotNull { it.asProperty() }`, consumed in full. */
  function ParametersOf(parentKey: Option<string>, kvs: seq<KeyValue>): Result<seq<Parameter>, TemplateError> {
    if kvs == [] then Success([])
    else
      match AsProperty(parentKey, kvs[0])
      case Failure(e) => Failure(e)
      case Success(first) =>
        match ParametersOf(parentKey, kvs[1..])
        case Failure(e) => Failure(e)
        case Success(rest) => Success(if first.Some? then [first.value] + rest else rest)
  }

  /** A loaded template: its root mapping. */
  datatype Template = Template(templateRoot: YamlMapping)

  /** `getTemplateRoot(file)`: the single document's top-level mapping. */
  function GetTemplateRoot(file: YamlFile): (r: Result<YamlMapping, TemplateError>)
    ensures r.Success? <==> |file.documents| == 1 && file.documents[0].topLevelValue.Some? && file.documents[0].topLevelValue.value.Mapping?
    ensures r.Success? ==> file.documents[0].topLevelValue == Some(Mapping(r.value))
    ensures |file.documents| != 1 ==> r == Failure(TooManyDocuments)
    ensures |file.documents| == 1 && r.Failure? ==> r == Failure(InvalidRootType)
  {
    if |file.documents| != 1 then Failure(TooManyDocuments)
    else
      match file.documents[0].topLevelValue
      case Some(Mapping(m)) => Success(m)
      case _ => Failure(InvalidRootType)
  }

  /** The constructor `YamlCloudFormationTemplate(template)`. */
  function Load(file: YamlFile): (r: Result<Template, TemplateError>)
    ensures r.Success? <==> GetTemplateRoot(file).Success?
    ensures r.Success? ==> r.value.templateRoot == GetTemplateRoot(file).value
    ensures r.Failure? ==> r.error == GetTemplateRoot(file).error
  {
    match GetTemplateRoot(file)
    case Failure(e) => Failure(e)
    case Success(root) => Success(Template(root))
  }

  /** `resources()`. */
  function Resources(t: Template, registry: map<string, string>): Result<seq<Resource>, TemplateError> {
    match GetKeyValueByKey(t.templateRoot, "Resources")
    case None => Success([])
    case Some(block) =>
      match FindChildMapping(block)
      case None => Success([])
      case Some(resources) => ResourcesOf(Some(block.keyText), resources.keyValues, registry)
  }

  /** `parameters()`. */
  function Parameters(t: Template): Result<seq<Parameter>, TemplateError> {
    match GetKeyValueByKey(t.templateRoot, "Parameters")
    case None => Success([])
    case Some(block) =>
      match FindChildMapping(block)
      case None => Success([])
      case Some(parameters) => ParametersOf(Some(block.keyText), parameters.keyValues)
  }

  /** `resources()` is empty without a `Resources` key or without a mapping below it. */
  lemma ResourcesEmptyCases(t: Template, registry: map<string, string>)
    ensures GetKeyValueByKey(t.templateRoot, "Resources").None? ==> Resources(t, registry) == Success([])
    ensures GetKeyValueByKey(t.templateRoot, "Resources").Some? && FindChildMapping(GetKeyValueByKey(t.templateRoot, "Resources").value).None?
      ==> Resources(t, registry) == Success([])
  {
  }

  /**
   * Inside `Resources`, every key-value becomes one resource, in order, named by its key and
   * defined by its mapping; the first key-value whose value is not a mapping makes it fail.
   */
  lemma {:induction false} ResourcesOfOnePerKeyValue(kvs: seq<KeyValue>, registry: map<string, string>)
    ensures var r := ResourcesOf(Some("Resources"), kvs, registry);
      r.Success? <==> forall i | 0 <= i < |kvs| :: HasMappingValue(kvs[i])
    ensures var r := ResourcesOf(Some("Resources"), kvs, registry);
      r.Success? ==> |r.value| == |kvs| && forall i | 0 <= i < |kvs| ::
        r.value[i].logicalName == kvs[i].keyText && kvs[i].value == Some(Mapping(r.value[i].delegate))
    ensures var r := ResourcesOf(Some("Resources"), kvs, registry);
      r.Failure? ==> exists i | 0 <= i < |kvs| ::
        && !HasMappingValue(kvs[i]) && r.error == NotAMapping(kvs[i].keyText)
        && forall j | 0 <= j < i :: HasMappingValue(kvs[j])
  {
    if kvs != [] {
      ResourcesOfOnePerKeyValue(kvs[1..], registry);
      var r := ResourcesOf(Some("Resources"), kvs, registry);
      var rest := ResourcesOf(Some("Resources"), kvs[1..], registry);
      if HasMappingValue(kvs[0]) && rest.Failure? {
        var i :| 0 <= i < |kvs[1..]| && !HasMappingValue(kvs[1..][i]) && rest.error == NotAMapping(kvs[1..][i].keyText)
          && forall j | 0 <= j < i :: HasMappingValue(kvs[1..][j]);
        assert kvs[i + 1] == kvs[1..][i];
        assert forall j | 0 <= j < i + 1 :: HasMappingValue(kvs[j]) by {
          forall j | 0 <= j < i + 1 ensures HasMappingValue(kvs[j]) {
            if j > 0 { assert kvs[j] == kvs[1..][j - 1]; }
          }
        }
      }
      if r.Success? {
        forall i | 0 <= i < |kvs| ensures HasMappingValue(kvs[i]) {
          if i > 0 { assert kvs[i] == kvs[1..][i - 1]; }
        }
      }
      if forall i | 0 <= i < |kvs| :: HasMappingValue(kvs[i]) {
        assert forall i | 0 <= i < |kvs[1..]| :: HasMappingValue(kvs[1..][i]) by {
          forall i | 0 <= i < |kvs[1..]| ensures HasMappingValue(kvs[1..][i]) {
            assert kvs[1..][i] == kvs[i + 1];
          }
        }
      }
    }
  }

  /**
   * When the `Resources` key has a mapping below it, `resources()` is the conversion of that
   * mapping's key-values as resources: `asResource()`'s check of the enclosing key always passes.
   */
  lemma ResourcesAreTheResourcesBlock(t: Template, registry: map<string, string>)
    requires GetKeyValueByKey(t.templateRoot, "Resources").Some?
    requires FindChildMapping(GetKeyValueByKey(t.templateRoot, "Resources").value).Some?
    ensures Resources(t, registry) ==
      ResourcesOf(Some("Resources"), FindChildMapping(GetKeyValueByKey(t.templateRoot, "Resources").value).value.keyValues, registry)
  {
  }

  /** `parameters()` is empty without a `Parameters` key or without a mapping below it. */
  lemma ParametersEmptyCases(t: Template)
    ensures GetKeyValueByKey(t.templateRoot, "Parameters").None? ==> Parameters(t) == Success([])
    ensures GetKeyValueByKey(t.templateRoot, "Parameters").Some? && FindChildMapping(GetKeyValueByKey(t.templateRoot, "Parameters").value).None?
      ==> Parameters(t) == Success([])
  {
  }

  /**
   * Inside `Parameters`, every key-value becomes one parameter, in order, named by its key and
   * defined by its mapping; a key-value whose value is not a mapping makes it fail.
   */
  lemma {:induction false} ParametersOfOnePerKeyValue(kvs: seq<KeyValue>)
    ensures var r := ParametersOf(Some("Parameters"), kvs);
      r.Success? <==> forall i | 0 <= i < |kvs| :: HasMappingValue(kvs[i])
    ensures var r := ParametersOf(Some("Parameters"), kvs);
      r.Success? ==> |r.value| == |kvs| && forall i | 0 <= i < |kvs| ::
        r.value[i].logicalName == kvs[i].keyText && kvs[i].value == Some(Mapping(r.value[i].delegate))
  {
    if kvs != [] {
      ParametersOfOnePerKeyValue(kvs[1..]);
      var r := ParametersOf(Some("Parameters"), kvs);
      if r.Success? {
        forall i | 0 <= i < |kvs| ensures HasMappingValue(kvs[i]) {
          if i > 0 { assert kvs[i] == kvs[1..][i - 1]; }
        }
      }
      if forall i | 0 <= i < |kvs| :: HasMappingValue(kvs[i]) {
        assert forall i | 0 <= i < |kvs[1..]| :: HasMappingValue(kvs[1..][i]) by {
          forall i | 0 <= i < |kvs[1..]| ensures HasMappingValue(kvs[1..][i]) {
            assert kvs[1..][i] == kvs[i + 1];
          }
        }
      }
    }
  }

  /** When the `Parameters` key has a mapping below it, `parameters()` converts its key-values. */
  lemma ParametersAreTheParametersBlock(t: Template)
    requires GetKeyValueByKey(t.templateRoot, "Parameters").Some?
    requires FindChildMapping(GetKeyValueByKey(t.templateRoot, "Parameters").value).Some?
    ensures Parameters(t) ==
      ParametersOf(Some("Parameters"), FindChildMapping(GetKeyValueByKey(t.templateRoot, "Parameters").value).value.keyValues)
  {
  }

  /**
   * `getEnvironmentVariables()` fails with `key_not_found` without a `Properties` mapping and is
   * empty when `Environment` or `Variables` is not a mapping; the remaining case is stated by
   * `GetEnvironmentVariables` itself and, variable by variable, by `ResourceEnvironmentVariables`.
   */
  lemma EnvironmentVariablesCases(res: Resource)
    ensures res.Properties().Failure? ==> res.GetEnvironmentVariables() == Failure(KeyNotFound("Properties", res.logicalName))
    ensures res.Properties().Success? && ChildMapping(res.Properties().value, "Environment").None? ==>
      res.GetEnvironmentVariables() == Success([])
    ensures (res.Properties().Success? && ChildMapping(res.Properties().value, "Environment").Some? &&
             ChildMapping(ChildMapping(res.Properties().value, "Environment").value, "Variables").None?) ==>
      res.GetEnvironmentVariables() == Success([])
  {
  }
  /**
   * The variables of a resource with a `Properties.Environment.Variables` mapping: a literal for
   * each scalar-valued key-value there, and a reference for each mapping-valued one whose `Ref` is
   * a scalar, named by the key and carrying that text.
   */
  lemma ResourceEnvironmentVariables(res: Resource, vars: YamlMapping, name: string, text: string)
    requires res.Properties().Success? && ChildMapping(res.Properties().value, "Environment").Some?
    requires ChildMapping(ChildMapping(res.Properties().value, "Environment").value, "Variables") == Some(vars)
    ensures res.GetEnvironmentVariables().Success?
    ensures YamlVariable(name, true, text) in res.GetEnvironmentVariables().value <==>
      KeyValue(name, Some(Scalar(text))) in vars.keyValues
    ensures YamlVariable(name, false, text) in res.GetEnvironmentVariables().value <==>
      exists m | KeyValue(name, Some(Mapping(m))) in vars.keyValues ::
        GetKeyValueByKey(m, "Ref") == Some(KeyValue("Ref", Some(Scalar(text))))
  {
    EnvironmentVariableMembers(vars.keyValues, name, text);
  }


  /** Which variables a `Variables` mapping yields: literals from scalars, references from `Ref`s. */
  lemma EnvironmentVariableMembers(kvs: seq<KeyValue>, name: string, text: string)
    ensures YamlVariable(name, true, text) in EnvironmentVariablesOf(kvs) <==> KeyValue(name, Some(Scalar(text))) in kvs
    ensures YamlVariable(name, false, text) in EnvironmentVariablesOf(kvs) <==>
      exists m | KeyValue(name, Some(Mapping(m))) in kvs :: GetKeyValueByKey(m, "Ref") == Some(KeyValue("Ref", Some(Scalar(text))))
  {
    EnvironmentVariablesOfMembers(kvs);
    LiteralMember(kvs, name, text);
    ReferenceMember(kvs, name, text);
  }

  /** The literal half of `EnvironmentVariableMembers`, given the membership facts. */
  lemma LiteralMember(kvs: seq<KeyValue>, name: string, text: string)
    requires forall v | v in EnvironmentVariablesOf(kvs) :: exists kv | kv in kvs :: AsEnvironmentVariable(kv) == Some(v)
    requires forall kv | kv in kvs && AsEnvironmentVariable(kv).Some? :: AsEnvironmentVariable(kv).value in EnvironmentVariablesOf(kvs)
    ensures YamlVariable(name, true, text) in EnvironmentVariablesOf(kvs) <==> KeyValue(name, Some(Scalar(text))) in kvs
  {
    var lit := KeyValue(name, Some(Scalar(text)));
    var v := YamlVariable(name, true, text);
    if lit in kvs {
      assert AsEnvironmentVariable(lit) == Some(v);
    }
    if v in EnvironmentVariablesOf(kvs) {
      var kv :| kv in kvs && AsEnvironmentVariable(kv) == Some(v);
      assert kv == lit;
    }
  }

  /** The reference half of `EnvironmentVariableMembers`, given the membership facts. */
  lemma ReferenceMember(kvs: seq<KeyValue>, name: string, text: string)
    requires forall v | v in EnvironmentVariablesOf(kvs) :: exists kv | kv in kvs :: AsEnvironmentVariable(kv) == Some(v)
    requires forall kv | kv in kvs && AsEnvironmentVariable(kv).Some? :: AsEnvironmentVariable(kv).value in EnvironmentVariablesOf(kvs)
    ensures YamlVariable(name, false, text) in EnvironmentVariablesOf(kvs) <==>
      exists m | KeyValue(name, Some(Mapping(m))) in kvs :: GetKeyValueByKey(m, "Ref") == Some(KeyValue("Ref", Some(Scalar(text))))
  {
    var v := YamlVariable(name, false, text);
    if exists m | KeyValue(name, Some(Mapping(m))) in kvs :: GetKeyValueByKey(m, "Ref") == Some(KeyValue("Ref", Some(Scalar(text)))) {
      var m :| KeyValue(name, Some(Mapping(m))) in kvs && GetKeyValueByKey(m, "Ref") == Some(KeyValue("Ref", Some(Scalar(text))));
      assert AsEnvironmentVariable(KeyValue(name, Some(Mapping(m)))) == Some(v);
    }
    if v in EnvironmentVariablesOf(kvs) {
      var kv :| kv in kvs && AsEnvironmentVariable(kv) == Some(v);
      assert kv == KeyValue(name, Some(Mapping(kv.value.value.mapping)));
    }
  }


  /**
   * After `setScalarProperty(key, value)` the resource reads `value` under `key`; every other
   * property, the type and the name read as before. Without `Properties` it fails like `properties()`.
   */
  lemma SetScalarPropertyThenGet(res: Resource, key: string, value: string)
    ensures res.Properties().Failure? ==> res.SetScalarProperty(key, value) == Failure(KeyNotFound("Properties", res.logicalName))
    ensures res.Properties().Success? ==>
      && res.SetScalarProperty(key, value).Success?
      && var res' := res.SetScalarProperty(key, value).value;
      && res'.GetOptionalScalarProperty(key) == Success(Some(value))
      && (forall k | k != key :: res'.GetOptionalScalarProperty(k) == res.GetOptionalScalarProperty(k))
      && res'.Type() == res.Type() && res'.logicalName == res.logicalName && res'.typedAs == res.typedAs
  {
    if res.Properties().Success? {
      var props := res.Properties().value;
      var props' := PutKeyValue(props, KeyValue(key, Some(Scalar(value))));
      var res' := res.SetScalarProperty(key, value).value;
      assert GetKeyValueByKey(res'.delegate, "Properties") == Some(KeyValue("Properties", Some(Mapping(props'))));
      assert res'.Properties() == Success(props');
    }
  }
}
