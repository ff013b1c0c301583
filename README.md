# AWS Toolkit for JetBrains: verified model of five pieces of plugin logic

This project models, in Dafny, the small self-contained pieces of logic inside the AWS Toolkit
plugin for JetBrains IDEs, and proves what they promise. The IDE types (PSI trees, Swing fields,
process handlers, futures) are replaced by plain values.

- **Environment-variable text field** (`environment_variables.dfy`, module
  `EnvironmentVariablesField`). The field keeps an ordered map of variables and a list of
  protected names. From these it derives:
  - the rows of the edit table: protected names first, with read-only names;
  - the summary line `k=v;k=v`.

  It also rebuilds the map from the edited rows. The class `EnvironmentVariablesTextField` holds
  the three fields and the three operations that change them. The derived views are functions of
  the state.
- **CloudFormation YAML template** (`yaml_template.dfy`, module `YamlCloudFormationTemplate`).
  YAML nodes are scalars, mappings, or other nodes with children. Over them the module models:
  - root validation;
  - the `Resources`, `Parameters`, `Properties`, `Environment` and `Variables` lookups;
  - classification of environment variables as literals or `Ref` references;
  - the resource and parameter accessors.
- **SAM deploy dialog** (`sam_deploy.dfy`, module `SamDeploy`). It models:
  - the `sam build`, `sam package` and `sam deploy` command lines and the derived template paths;
  - the environment merge;
  - `Deployment`, a function that sequences the stages;
  - the class `SamDeployDialog`, whose methods update the step counter, the button states, the
    change set and the error text.
- **Region provider** (`regions.dfy`, module `AwsRegions`). It builds the region table from the
  `aws` partition and looks up the default region.
- **Create-Lambda action** (`create_lambda.dfy`, module `CreateLambda`). It models the
  constructor's argument check and the visibility rule of `update`.

Shared support:
- `text.dfy` (module `Text`): Kotlin's `Char.isWhitespace`, `isBlank`, `trim` and `joinTo`, plus a
  splitter that undoes a join.
- `ordered_maps.dfy` (module `OrderedMaps`): a `LinkedHashMap` as a sequence of pairs with
  distinct keys. `put` either replaces a value in place or appends a new key.
- `sequences.dfy` (module `Sequences`): order-keeping selection from a sequence, the shape of
  Kotlin's `filter` and `mapNotNull`.
- `wrappers.dfy` (module `Wrappers`): `Option` for nullable values and `Result` for calls that
  throw.

Inputs of the model:
- What the host IDE or the operating system supplies is a parameter. For a SAM stage this is the
  SAM executable setting, the outcome of resolving the credentials (their variables, or the
  exception the provider throws), and the exit code and standard output of its process. For the Create-Lambda action it is the template index's function handlers and the
  handlers the resolver determines. The region provider receives the parsed partition data.
- The change-set regular expression is an abstract function `findChangeSet`.
- The registry `RESOURCE_MAPPINGS` is a map from resource type to the name of its typed wrapper.

## Model

| member | source | states |
|---|---|---|
| Text.TrimStart | jetbrains-core/src/software/aws/toolkits/jetbrains/ui/EnvironmentVariablesTextField.kt:74 | the result is a suffix of the input, the dropped prefix is blank, and the result is empty or starts with a non-whitespace character |
| Text.TrimEnd | jetbrains-core/src/software/aws/toolkits/jetbrains/ui/EnvironmentVariablesTextField.kt:74 | the result is a prefix of the input, the dropped suffix is blank, and the result is empty or ends with a non-whitespace character |
| Text.TrimFactor | jetbrains-core/src/software/aws/toolkits/jetbrains/ui/EnvironmentVariablesTextField.kt:74 | `trim()` returns a factor of its input with only whitespace before and after it |
| Text.Trim | jetbrains-core/src/software/aws/toolkits/jetbrains/ui/EnvironmentVariablesTextField.kt:74 | `trim()` is no longer than its input and gives the empty string or a string that starts and ends with non-whitespace; with `TrimFactor`, what it removes is whitespace only |
| Text.TrimEmptyIffBlank | jetbrains-core/src/software/aws/toolkits/jetbrains/ui/EnvironmentVariablesTextField.kt:65-74 | `trim()` gives the empty string exactly when the input is blank (`IsBlank`: every character `IsWhitespace`) |
| Text.TrimIsTrimmed | jetbrains-core/src/software/aws/toolkits/jetbrains/ui/EnvironmentVariablesTextField.kt:74 | trimming is idempotent |
| Text.BlankTrimsToEmpty | jetbrains-core/src/software/aws/toolkits/jetbrains/ui/EnvironmentVariablesTextField.kt:73-74 | a blank value trims to the empty string, which is itself trimmed |
| Text.Join | jetbrains-core/src/software/aws/toolkits/jetbrains/ui/EnvironmentVariablesTextField.kt:66 | joining no parts gives `""`; joining one part gives that part |
| Text.SplitAtFirst | jetbrains-core/src/software/aws/toolkits/jetbrains/ui/EnvironmentVariablesTextField.kt:66 | the first half never contains the cut character; without the character the whole input is the first half, and with it the two halves around that first occurrence give back the input |
| Text.SplitJoin | jetbrains-core/src/software/aws/toolkits/jetbrains/ui/EnvironmentVariablesTextField.kt:66 | splitting at `c` undoes `joinTo(c)` when no part contains `c` |
| Text.SplitAtFirstPair | jetbrains-core/src/software/aws/toolkits/jetbrains/ui/EnvironmentVariablesTextField.kt:66 | cutting `k=v` at its first `=` gives back `k` and `v` when `k` has no `=` |
| OrderedMaps.Keys | jetbrains-core/src/software/aws/toolkits/jetbrains/ui/EnvironmentVariablesTextField.kt:71 | the keys in iteration order, one per entry |
| OrderedMaps.Get | jetbrains-core/src/software/aws/toolkits/jetbrains/ui/EnvironmentVariablesTextField.kt:52 | `get(k)` is present exactly when `k` is a key, and it returns the value of an entry under `k` |
| OrderedMaps.GetEntry | jetbrains-core/src/software/aws/toolkits/jetbrains/ui/EnvironmentVariablesTextField.kt:52 | in a map with distinct keys, every entry is what `get` finds under its key |
| OrderedMaps.Put | jetbrains-core/src/software/aws/toolkits/jetbrains/ui/EnvironmentVariablesTextField.kt:71-74 | `LinkedHashMap.put`: afterwards `k` reads `v` and every other key reads as before |
| OrderedMaps.PutKeys | jetbrains-core/src/software/aws/toolkits/jetbrains/ui/EnvironmentVariablesTextField.kt:71-74 | under `LinkedHashMap.put` an existing key keeps its place in the key order and a new key goes last |
| OrderedMaps.PutNoDuplicateKeys | jetbrains-core/src/software/aws/toolkits/jetbrains/ui/EnvironmentVariablesTextField.kt:71-74 | `put` keeps the keys distinct |
| OrderedMaps.PutEntries | jetbrains-core/src/software/aws/toolkits/jetbrains/ui/EnvironmentVariablesTextField.kt:74 | after `put(k, v)` every entry is an old entry or `(k, v)` |
| OrderedMaps.PutAllGet | jetbrains-core/src/software/aws/toolkits/jetbrains/services/lambda/deploy/SamDeployDialog.kt:174-176 | after `putAll(other)`, a key of `other` reads as in `other` and any other key reads as before |
| OrderedMaps.PutAllNoDuplicateKeys | jetbrains-core/src/software/aws/toolkits/jetbrains/services/lambda/deploy/SamDeployDialog.kt:174-176 | `putAll` keeps the keys distinct |
| OrderedMaps.ToMap | jetbrains-core/src/software/aws/toolkits/jetbrains/ui/EnvironmentVariablesTextField.kt:30-31 | the key/value content of an ordered map, in agreement with `get` |
| EnvironmentVariablesField.ProtectedEntries | jetbrains-core/src/software/aws/toolkits/jetbrains/ui/EnvironmentVariablesTextField.kt:51-52 | one pair per protected name, in order, valued from `envVars` or `""` when the name is absent |
| EnvironmentVariablesField.UnprotectedEntries | jetbrains-core/src/software/aws/toolkits/jetbrains/ui/EnvironmentVariablesTextField.kt:49-56 | an entry is in the result exactly when it is an entry of `envVars` whose name is not protected (both directions); the keys stay distinct |
| EnvironmentVariablesField.UnprotectedEntriesInOrder | jetbrains-core/src/software/aws/toolkits/jetbrains/ui/EnvironmentVariablesTextField.kt:54-56 | the `filter` keeps map order (the result is a subsequence of `envVars`) and keeps each unprotected entry exactly as often as `envVars` has it, and no protected one |
| Sequences.SubsequenceOrder | jetbrains-core/src/software/aws/toolkits/jetbrains/ui/EnvironmentVariablesTextField.kt:54-56 | what "keeps the order" means: any two elements of a subsequence occur in the whole sequence at two positions in the same order |
| EnvironmentVariablesField.ConvertToVariables | jetbrains-core/src/software/aws/toolkits/jetbrains/ui/EnvironmentVariablesTextField.kt:58-60 | first the protected rows, flagged protected, in `protectedVarNames` order and valued from `envVars` or `""`; then one unprotected row per element of `unprotectedEntries()`, in its order, which `UnprotectedEntriesInOrder` shows is map order |
| EnvironmentVariablesField.ConvertedNameWriteable | jetbrains-core/src/software/aws/toolkits/jetbrains/ui/EnvironmentVariablesTextField.kt:49-110 | a row's name is writeable exactly when it is not protected (`IsProtectedVar`, `protectedVarNames.contains`) |
| EnvironmentVariablesField.ConvertedPartsDisjointAndComplete | jetbrains-core/src/software/aws/toolkits/jetbrains/ui/EnvironmentVariablesTextField.kt:49-60 | no name appears in both parts, and every entry of `envVars` is offered with its value |
| EnvironmentVariablesField.NonBlankEntries | jetbrains-core/src/software/aws/toolkits/jetbrains/ui/EnvironmentVariablesTextField.kt:65 | an entry is in the result exactly when it is an entry with a non-blank value (both directions) |
| EnvironmentVariablesField.NonBlankEntriesInOrder | jetbrains-core/src/software/aws/toolkits/jetbrains/ui/EnvironmentVariablesTextField.kt:65 | the `filter` keeps the order of the protected entries (a subsequence) and keeps each non-blank entry exactly as often as it occurs, and no blank one |
| EnvironmentVariablesField.RenderAll | jetbrains-core/src/software/aws/toolkits/jetbrains/ui/EnvironmentVariablesTextField.kt:66 | one `key=value` string per entry, in order |
| EnvironmentVariablesField.StringifiedEntriesMembers | jetbrains-core/src/software/aws/toolkits/jetbrains/ui/EnvironmentVariablesTextField.kt:62-68 | the summary shows a pair exactly when it is a protected name with its non-blank value, or an unprotected entry of `envVars` |
| EnvironmentVariablesField.StringifiedProtectedFirst | jetbrains-core/src/software/aws/toolkits/jetbrains/ui/EnvironmentVariablesTextField.kt:65 | every protected pair comes before every unprotected pair |
| EnvironmentVariablesField.ParsePairs | jetbrains-core/src/software/aws/toolkits/jetbrains/ui/EnvironmentVariablesTextField.kt:66 | reading back gives one pair per `;`-separated part, in order; a name never holds `=`; a part with `=` is its name, `=` and its value, and a part without one is a name with the value `""` |
| EnvironmentVariablesField.ParseRendered | jetbrains-core/src/software/aws/toolkits/jetbrains/ui/EnvironmentVariablesTextField.kt:66 | reading back rendered pairs gives those pairs when no key has `=` |
| EnvironmentVariablesField.StringifyRoundTrip | jetbrains-core/src/software/aws/toolkits/jetbrains/ui/EnvironmentVariablesTextField.kt:62-68 | when names have no `;` or `=` and values have no `;`, the summary line `Stringify` reads back into exactly the pairs `StringifiedEntries` it shows, in order |
| EnvironmentVariablesField.AcceptStep | jetbrains-core/src/software/aws/toolkits/jetbrains/ui/EnvironmentVariablesTextField.kt:73-74 | one step of the loop: a kept row makes its name read as its trimmed value, a dropped row (protected and blank) changes nothing, and every other name reads as before |
| EnvironmentVariablesField.AcceptIntoGet | jetbrains-core/src/software/aws/toolkits/jetbrains/ui/EnvironmentVariablesTextField.kt:71-74 | after the loop `AcceptInto`, a name reads as the trimmed value of its last kept row, or as before when no kept row has it |
| EnvironmentVariablesField.LastKeptIsLast | jetbrains-core/src/software/aws/toolkits/jetbrains/ui/EnvironmentVariablesTextField.kt:72-74 | the last kept row with a name is found exactly when one exists, and no later kept row has that name |
| EnvironmentVariablesField.AcceptEditedGet | jetbrains-core/src/software/aws/toolkits/jetbrains/ui/EnvironmentVariablesTextField.kt:70-77 | in the rebuilt map `AcceptEdited`, a name is present exactly when some kept row has it; its value is the trimmed value of the last such row, so later rows overwrite earlier ones |
| EnvironmentVariablesField.AcceptEditedDropsOnlyBlankProtected | jetbrains-core/src/software/aws/toolkits/jetbrains/ui/EnvironmentVariablesTextField.kt:73 | a row's name is missing afterwards only if that row's name is protected and its value blank |
| EnvironmentVariablesField.AcceptIntoNoDuplicateKeys | jetbrains-core/src/software/aws/toolkits/jetbrains/ui/EnvironmentVariablesTextField.kt:71-74 | the loop keeps the keys distinct |
| EnvironmentVariablesField.AcceptIntoTrimmed | jetbrains-core/src/software/aws/toolkits/jetbrains/ui/EnvironmentVariablesTextField.kt:74 | the loop stores only trimmed values |
| EnvironmentVariablesField.AcceptIntoKeysGrow | jetbrains-core/src/software/aws/toolkits/jetbrains/ui/EnvironmentVariablesTextField.kt:71-74 | the keys only grow at the end: the keys before a step are a prefix of the keys after it |
| EnvironmentVariablesField.AcceptEditedShape | jetbrains-core/src/software/aws/toolkits/jetbrains/ui/EnvironmentVariablesTextField.kt:70-77 | the rebuilt map has distinct keys and trimmed values, and its key order is first-insertion order |
| EnvironmentVariablesField.AcceptIntoSplit | jetbrains-core/src/software/aws/toolkits/jetbrains/ui/EnvironmentVariablesTextField.kt:72-74 | running the loop over `a + b` is running it over `a`, then over `b` |
| EnvironmentVariablesField.LastKeptAppend | jetbrains-core/src/software/aws/toolkits/jetbrains/ui/EnvironmentVariablesTextField.kt:72-74 | the last kept row of `a + b` comes from `b` if `b` has one, else from `a` |
| EnvironmentVariablesField.LastKeptAbsent | jetbrains-core/src/software/aws/toolkits/jetbrains/ui/EnvironmentVariablesTextField.kt:72-74 | rows that never have the name yield no value for it |
| EnvironmentVariablesField.LastKeptUniform | jetbrains-core/src/software/aws/toolkits/jetbrains/ui/EnvironmentVariablesTextField.kt:72-74 | rows that all carry the same value for a name yield that value, if that value is kept |
| EnvironmentVariablesField.RoundTripProtectedName | jetbrains-core/src/software/aws/toolkits/jetbrains/ui/EnvironmentVariablesTextField.kt:51-73 | for a protected name, the converted rows yield exactly its value in `envVars` |
| EnvironmentVariablesField.ProtectedValueKept | jetbrains-core/src/software/aws/toolkits/jetbrains/ui/EnvironmentVariablesTextField.kt:52-73 | a protected row is kept exactly when `envVars` holds its name |
| EnvironmentVariablesField.ProtectedRowsUniform | jetbrains-core/src/software/aws/toolkits/jetbrains/ui/EnvironmentVariablesTextField.kt:51-52 | a protected name has a protected row, and all its rows carry the same value |
| EnvironmentVariablesField.RoundTripUnprotectedName | jetbrains-core/src/software/aws/toolkits/jetbrains/ui/EnvironmentVariablesTextField.kt:54-60 | for an unprotected name, the converted rows yield exactly its value in `envVars` |
| EnvironmentVariablesField.ConvertAcceptRoundTrip | jetbrains-core/src/software/aws/toolkits/jetbrains/ui/EnvironmentVariablesTextField.kt:51-77 | feeding `convertToVariables()` back to `acceptEditedVariables` gives the same key/value content as `envVars`, when every value is trimmed and every protected name present has a non-blank value |
| EnvironmentVariablesField.EnvironmentVariablesTextField.constructor | jetbrains-core/src/software/aws/toolkits/jetbrains/ui/EnvironmentVariablesTextField.kt:27-29 | a new field has no protected names, no variables and empty text |
| EnvironmentVariablesField.EnvironmentVariablesTextField.SetEnvVars | jetbrains-core/src/software/aws/toolkits/jetbrains/ui/EnvironmentVariablesTextField.kt:30-35 | the setter stores the map and leaves `text == stringify()` for the new state |
| EnvironmentVariablesField.EnvironmentVariablesTextField.ProtectVariables | jetbrains-core/src/software/aws/toolkits/jetbrains/ui/EnvironmentVariablesTextField.kt:44-47 | the protected names are replaced, the map is unchanged, and `text == stringify()` for the new state |
| EnvironmentVariablesField.EnvironmentVariablesTextField.AcceptEditedVariables | jetbrains-core/src/software/aws/toolkits/jetbrains/ui/EnvironmentVariablesTextField.kt:70-77 | the loop over the edited rows leaves `envVars` equal to `AcceptEdited` of those rows (the map described by the lemmas above), keeps the text in sync, and leaves the protected names unchanged |
| YamlCloudFormationTemplate.GetKeyValueByKey | jetbrains-core/src/software/aws/toolkits/jetbrains/services/cloudformation/yaml/YamlCloudFormationTemplate.kt:44 | the first key-value with the key, or none exactly when no key-value has it |
| YamlCloudFormationTemplate.ChildMapping | jetbrains-core/src/software/aws/toolkits/jetbrains/services/cloudformation/yaml/YamlCloudFormationTemplate.kt:123 | `childMapping(key)` is present exactly when the first key-value with that key has a mapping value, and then it is that mapping |
| YamlCloudFormationTemplate.FindChildMapping | jetbrains-core/src/software/aws/toolkits/jetbrains/services/cloudformation/yaml/YamlCloudFormationTemplate.kt:45-52 | a mapping value is found itself; a scalar or absent value has no mapping below it |
| YamlCloudFormationTemplate.AsEnvironmentVariable | jetbrains-core/src/software/aws/toolkits/jetbrains/services/cloudformation/yaml/YamlCloudFormationTemplate.kt:89-150 | a scalar value is a literal with the scalar's text; a mapping whose `Ref` is a scalar is a reference with the `Ref` text; every other value is dropped |
| YamlCloudFormationTemplate.EnvironmentVariablesOf | jetbrains-core/src/software/aws/toolkits/jetbrains/services/cloudformation/yaml/YamlCloudFormationTemplate.kt:82 | `mapNotNull` gives at most one variable per key-value; a single key-value gives its variable, or nothing when it converts to none |
| YamlCloudFormationTemplate.EnvironmentVariablesOfMembers | jetbrains-core/src/software/aws/toolkits/jetbrains/services/cloudformation/yaml/YamlCloudFormationTemplate.kt:82 | every variable produced is the conversion of some key-value, and every key-value that converts contributes its variable |
| YamlCloudFormationTemplate.EnvironmentVariablesOfAppend | jetbrains-core/src/software/aws/toolkits/jetbrains/services/cloudformation/yaml/YamlCloudFormationTemplate.kt:82 | `mapNotNull` keeps document order: the variables of `a + b` are those of `a` followed by those of `b` |
| YamlCloudFormationTemplate.Resource.Type | jetbrains-core/src/software/aws/toolkits/jetbrains/services/cloudformation/yaml/YamlCloudFormationTemplate.kt:67 | `type()` is null exactly when there is no `Type` key; otherwise it is the text of the first `Type` key-value |
| YamlCloudFormationTemplate.Resource.IsType | jetbrains-core/src/software/aws/toolkits/jetbrains/services/cloudformation/yaml/YamlCloudFormationTemplate.kt:61-67 | true exactly when the first `Type` key has exactly the requested text; it never fails |
| YamlCloudFormationTemplate.Resource.Properties | jetbrains-core/src/software/aws/toolkits/jetbrains/services/cloudformation/yaml/YamlCloudFormationTemplate.kt:85-86 | present exactly when the resource's own `Properties` key has a mapping value, and then it is that mapping; otherwise `key_not_found` for `Properties` and this resource |
| YamlCloudFormationTemplate.Resource.GetOptionalScalarProperty | jetbrains-core/src/software/aws/toolkits/jetbrains/services/cloudformation/yaml/YamlCloudFormationTemplate.kt:72 | fails exactly as `properties()` does; otherwise gives the text of the first key-value with the key in `Properties`, or none |
| YamlCloudFormationTemplate.Resource.GetScalarProperty | jetbrains-core/src/software/aws/toolkits/jetbrains/services/cloudformation/yaml/YamlCloudFormationTemplate.kt:69-70 | equals the optional property when that is present; `missing_property` for the key and resource when it is absent; the `properties()` error otherwise |
| YamlCloudFormationTemplate.Resource.SetScalarProperty | jetbrains-core/src/software/aws/toolkits/jetbrains/services/cloudformation/yaml/YamlCloudFormationTemplate.kt:74-77 | fails exactly when `properties()` fails; otherwise the name and typed wrapper are kept and every key of the resource other than `Properties` reads as before |
| YamlCloudFormationTemplate.Resource.GetEnvironmentVariables | jetbrains-core/src/software/aws/toolkits/jetbrains/services/cloudformation/yaml/YamlCloudFormationTemplate.kt:79-86 | fails exactly when `properties()` fails, with `key_not_found` for `Properties` and this resource; when `Properties.Environment.Variables` is a chain of mappings, the result is `mapNotNull { asEnvironmentVariable() }` of that mapping's key-values |
| YamlCloudFormationTemplate.PutKeyValue | jetbrains-core/src/software/aws/toolkits/jetbrains/services/cloudformation/yaml/YamlCloudFormationTemplate.kt:76 | afterwards the key finds the new key-value and every other key reads as before |
| YamlCloudFormationTemplate.ReplaceValue | jetbrains-core/src/software/aws/toolkits/jetbrains/services/cloudformation/yaml/YamlCloudFormationTemplate.kt:74-77 | the `Properties` value is replaced in place and every other key reads as before |
| YamlCloudFormationTemplate.SetScalarPropertyThenGet | jetbrains-core/src/software/aws/toolkits/jetbrains/services/cloudformation/yaml/YamlCloudFormationTemplate.kt:72-77 | after `setScalarProperty(k, v)` the property `k` reads `v`; every other property, the type and the name are unchanged; without `Properties` it fails with `key_not_found` |
| YamlCloudFormationTemplate.Parameter.GetOptionalScalarProperty | jetbrains-core/src/software/aws/toolkits/jetbrains/services/cloudformation/yaml/YamlCloudFormationTemplate.kt:101 | the text of the parameter's first key-value with the key, or none |
| YamlCloudFormationTemplate.Parameter.GetScalarProperty | jetbrains-core/src/software/aws/toolkits/jetbrains/services/cloudformation/yaml/YamlCloudFormationTemplate.kt:98-99 | equals the optional property when that is present, and fails with `missing_property` otherwise |
| YamlCloudFormationTemplate.Parameter.SetScalarProperty | jetbrains-core/src/software/aws/toolkits/jetbrains/services/cloudformation/yaml/YamlCloudFormationTemplate.kt:103-105 | always fails as not implemented |
| YamlCloudFormationTemplate.AsResource | jetbrains-core/src/software/aws/toolkits/jetbrains/services/cloudformation/yaml/YamlCloudFormationTemplate.kt:125-130 | no resource exactly when the enclosing key is not `Resources`; otherwise a resource named by the key and defined by its mapping, typed through the registry exactly when its type is registered; the cast fails when the value is not a mapping |
| YamlCloudFormationTemplate.AsProperty | jetbrains-core/src/software/aws/toolkits/jetbrains/services/cloudformation/yaml/YamlCloudFormationTemplate.kt:132-137 | no parameter exactly when the enclosing key is not `Parameters`; otherwise a parameter named by the key; the cast fails when the value is not a mapping |
| YamlCloudFormationTemplate.ConvertPsiToResource | jetbrains-core/src/software/aws/toolkits/jetbrains/services/cloudformation/yaml/YamlCloudFormationTemplate.kt:118-121 | null for an element that is not a key-value, otherwise `asResource()` |
| YamlCloudFormationTemplate.GetTemplateRoot | jetbrains-core/src/software/aws/toolkits/jetbrains/services/cloudformation/yaml/YamlCloudFormationTemplate.kt:33-41 | succeeds exactly when there is one document whose top-level value is a mapping; `too_many_documents` when the count is not 1, `invalid_root_type` otherwise |
| YamlCloudFormationTemplate.Load | jetbrains-core/src/software/aws/toolkits/jetbrains/services/cloudformation/yaml/YamlCloudFormationTemplate.kt:28-31 | the constructor succeeds exactly when `getTemplateRoot` does, keeps its root mapping, and otherwise throws its error |
| YamlCloudFormationTemplate.ResourcesEmptyCases | jetbrains-core/src/software/aws/toolkits/jetbrains/services/cloudformation/yaml/YamlCloudFormationTemplate.kt:43-46 | no resources without a `Resources` key or without a mapping below it |
| YamlCloudFormationTemplate.ResourcesOfOnePerKeyValue | jetbrains-core/src/software/aws/toolkits/jetbrains/services/cloudformation/yaml/YamlCloudFormationTemplate.kt:47-127 | inside `Resources`, the result is one resource per key-value, in order, named by its key, exactly when every value is a mapping; otherwise the first non-mapping key-value is the error |
| YamlCloudFormationTemplate.ResourcesAreTheResourcesBlock | jetbrains-core/src/software/aws/toolkits/jetbrains/services/cloudformation/yaml/YamlCloudFormationTemplate.kt:43-47 | with a `Resources` mapping, `resources()` (`Resources`) converts its key-values with the enclosing key `Resources` (`ResourcesOf`) |
| YamlCloudFormationTemplate.ParametersEmptyCases | jetbrains-core/src/software/aws/toolkits/jetbrains/services/cloudformation/yaml/YamlCloudFormationTemplate.kt:50-53 | no parameters without a `Parameters` key or without a mapping below it |
| YamlCloudFormationTemplate.ParametersOfOnePerKeyValue | jetbrains-core/src/software/aws/toolkits/jetbrains/services/cloudformation/yaml/YamlCloudFormationTemplate.kt:54-134 | inside `Parameters`, one parameter per key-value, in order, named by its key, exactly when every value is a mapping |
| YamlCloudFormationTemplate.ParametersAreTheParametersBlock | jetbrains-core/src/software/aws/toolkits/jetbrains/services/cloudformation/yaml/YamlCloudFormationTemplate.kt:50-54 | with a `Parameters` mapping, `parameters()` (`Parameters`) converts its key-values with the enclosing key `Parameters` (`ParametersOf`) |
| YamlCloudFormationTemplate.EnvironmentVariablesCases | jetbrains-core/src/software/aws/toolkits/jetbrains/services/cloudformation/yaml/YamlCloudFormationTemplate.kt:79-86 | `key_not_found` without `Properties`; no variables when `Environment` or `Variables` is not a mapping |
| YamlCloudFormationTemplate.EnvironmentVariableMembers | jetbrains-core/src/software/aws/toolkits/jetbrains/services/cloudformation/yaml/YamlCloudFormationTemplate.kt:82-150 | a literal is produced exactly for a scalar-valued key-value; a reference exactly for a mapping-valued key-value whose `Ref` is that scalar |
| YamlCloudFormationTemplate.ResourceEnvironmentVariables | jetbrains-core/src/software/aws/toolkits/jetbrains/services/cloudformation/yaml/YamlCloudFormationTemplate.kt:79-83 | with a `Properties.Environment.Variables` mapping, `getEnvironmentVariables()` succeeds and holds a literal exactly for each scalar-valued key-value there and a reference exactly for each mapping-valued one whose `Ref` is that scalar |
| SamDeploy.BuildDir | jetbrains-core/src/software/aws/toolkits/jetbrains/services/lambda/deploy/SamDeployDialog.kt:89 | the build directory is `<templateDir>/.aws-sam/build` |
| SamDeploy.BuiltTemplate | jetbrains-core/src/software/aws/toolkits/jetbrains/services/lambda/deploy/SamDeployDialog.kt:100 | the built template is `template.yaml` in the build directory |
| SamDeploy.PackagedTemplate | jetbrains-core/src/software/aws/toolkits/jetbrains/services/lambda/deploy/SamDeployDialog.kt:106 | the packaged template is `packaged-<name>` in the built template's directory |
| SamDeploy.DerivedPaths | jetbrains-core/src/software/aws/toolkits/jetbrains/services/lambda/deploy/SamDeployDialog.kt:89-106 | the built and packaged templates are `.aws-sam/build/template.yaml` and `.aws-sam/build/packaged-template.yaml` under the template's directory |
| SamDeploy.CommandEnvironmentGet | jetbrains-core/src/software/aws/toolkits/jetbrains/services/lambda/deploy/SamDeployDialog.kt:174-176 | in the merged environment `CommandEnvironment`, a variable reads as in the credentials when they set it, else as in the region's variables; the keys stay distinct |
| SamDeploy.CreateBaseCommand | jetbrains-core/src/software/aws/toolkits/jetbrains/services/lambda/deploy/SamDeployDialog.kt:173-184 | fails exactly when resolving the credentials fails (with that exception) or, after that, when there is no executable (with `sam.cli_not_configured`); otherwise the executable, run in the template's directory with the merged environment and no arguments |
| SamDeploy.Assignments | jetbrains-core/src/software/aws/toolkits/jetbrains/services/lambda/deploy/SamDeployDialog.kt:133-135 | one `key=value` per parameter, in map order |
| SamDeploy.DeployArgumentsShape | jetbrains-core/src/software/aws/toolkits/jetbrains/services/lambda/deploy/SamDeployDialog.kt:121-136 | nine fixed arguments ending in `--no-execute-changeset`; then, exactly when there are parameters, `--parameter-overrides` and one `key=value` per parameter |
| SamDeploy.BuildDeployCommand | jetbrains-core/src/software/aws/toolkits/jetbrains/services/lambda/deploy/SamDeployDialog.kt:121-136 | the `forEach` loop appending overrides builds exactly the deploy arguments |
| SamDeploy.RunCommand | jetbrains-core/src/software/aws/toolkits/jetbrains/services/lambda/deploy/SamDeployDialog.kt:205-214 | exit code 0 gives the extractor's result, including its failure; any other exit code fails with `execution_failed` |
| SamDeploy.ExtractChangeSet | jetbrains-core/src/software/aws/toolkits/jetbrains/services/lambda/deploy/SamDeployDialog.kt:138-141 | the matched change set, or `change_set_not_found` exactly when stdout has no match |
| SamDeploy.DeploymentStageOrder | jetbrains-core/src/software/aws/toolkits/jetbrains/services/lambda/deploy/SamDeployDialog.kt:77-86 | the processes start in the order build, package, deploy, at most once each |
| SamDeploy.DeploymentEachAfterPrevious | jetbrains-core/src/software/aws/toolkits/jetbrains/services/lambda/deploy/SamDeployDialog.kt:77-214 | in `Deployment`, a stage starts only after every earlier stage succeeded, and then exactly when its credentials resolve and it finds an executable |
| SamDeploy.DeploymentCompletes | jetbrains-core/src/software/aws/toolkits/jetbrains/services/lambda/deploy/SamDeployDialog.kt:77-141 | the run completes exactly when all three processes exit with 0 and the deploy output names a change set, which is then the result |
| SamDeploy.DeploymentThrows | jetbrains-core/src/software/aws/toolkits/jetbrains/services/lambda/deploy/SamDeployDialog.kt:81-180 | `executeDeployment` throws synchronously, with nothing started, exactly when the build stage cannot make its command; the exception is the credential failure, else `sam.cli_not_configured` |
| SamDeploy.DeploymentExecutionFailed | jetbrains-core/src/software/aws/toolkits/jetbrains/services/lambda/deploy/SamDeployDialog.kt:205-214 | a failed run whose last started process exited non-zero fails with `execution_failed`; conversely `execution_failed` means that process exited non-zero, unless a later stage's credentials failed with that same error |
| SamDeploy.DeploymentFailureCauses | jetbrains-core/src/software/aws/toolkits/jetbrains/services/lambda/deploy/SamDeployDialog.kt:138-213 | a failure is one of the three pipeline errors or a later stage's credential failure; a stage whose credentials fail after the previous stage succeeded ends the run with that exception |
| SamDeploy.DeploymentChangeSetNotFound | jetbrains-core/src/software/aws/toolkits/jetbrains/services/lambda/deploy/SamDeployDialog.kt:138-141 | `change_set_not_found` when every process succeeded but stdout names no change set, and only then unless a credential failure carries that same error |
| SamDeploy.DeploymentStepsAdvanced | jetbrains-core/src/software/aws/toolkits/jetbrains/services/lambda/deploy/SamDeployDialog.kt:104-120 | the step advances once when the package stage begins and once more when the deploy stage begins, whether or not those stages succeed |
| SamDeploy.DeploymentCommands | jetbrains-core/src/software/aws/toolkits/jetbrains/services/lambda/deploy/SamDeployDialog.kt:88-184 | each started process runs with its stage's executable, in the template directory, and with the merged environment of its stage's credentials; its arguments are `BuildArguments`, `PackageArguments` or `DeployArguments` on the right derived path |
| SamDeploy.ErrorMessage | jetbrains-core/src/software/aws/toolkits/jetbrains/services/lambda/deploy/SamDeployDialog.kt:161-165 | `abort` when the cause is a cancellation, else the exception's message, else `unknown_error` |
| SamDeploy.StageErrorMessages | jetbrains-core/src/software/aws/toolkits/jetbrains/services/lambda/deploy/SamDeployDialog.kt:140-213 | each pipeline error is shown with its own message |
| SamDeploy.SamDeployDialog.constructor | jetbrains-core/src/software/aws/toolkits/jetbrains/services/lambda/deploy/SamDeployDialog.kt:35-67 | a dialog created without executing: step 0, both buttons enabled, nothing started |
| SamDeploy.SamDeployDialog.CreateActions | jetbrains-core/src/software/aws/toolkits/jetbrains/services/lambda/deploy/SamDeployDialog.kt:69-73 | no buttons exactly when the change set is executed automatically; otherwise OK and Cancel |
| SamDeploy.SamDeployDialog.AdvanceStep | jetbrains-core/src/software/aws/toolkits/jetbrains/services/lambda/deploy/SamDeployDialog.kt:186-189 | the step counter goes up by one and nothing else changes |
| SamDeploy.SamDeployDialog.Finish | jetbrains-core/src/software/aws/toolkits/jetbrains/services/lambda/deploy/SamDeployDialog.kt:144-156 | records the change set, sets the step to `NUMBER_OF_STEPS`, enables both buttons, and requests OK when auto-executing |
| SamDeploy.SamDeployDialog.HandleError | jetbrains-core/src/software/aws/toolkits/jetbrains/services/lambda/deploy/SamDeployDialog.kt:158-171 | shows the chosen message, cancels the progress, and enables only Cancel |
| SamDeploy.SamDeployDialog.StartProcess | jetbrains-core/src/software/aws/toolkits/jetbrains/services/lambda/deploy/SamDeployDialog.kt:196-200 | a log tab for the stage's process is added and nothing else changes |
| SamDeploy.SamDeployDialog.ExecuteDeployment | jetbrains-core/src/software/aws/toolkits/jetbrains/services/lambda/deploy/SamDeployDialog.kt:77-147 | the outcome and started processes are those of `Deployment`; the step is 3 after `finish` and otherwise the advances `DeploymentStepsAdvanced` counts; OK is enabled only on completion, Cancel unless it threw; the change set is recorded on completion; the error text is set on failure |
| SamDeploy.SamDeployDialog.RunPackageOnward | jetbrains-core/src/software/aws/toolkits/jetbrains/services/lambda/deploy/SamDeployDialog.kt:82-117 | the package stage and what follows, as `PackageOnward` describes; it never throws synchronously |
| SamDeploy.SamDeployDialog.RunDeployOnward | jetbrains-core/src/software/aws/toolkits/jetbrains/services/lambda/deploy/SamDeployDialog.kt:83-142 | the deploy stage and `finish`, as `DeployOnward` describes; it never throws synchronously |
| AwsRegions.FindPartition | jetbrains-core/src/software/aws/toolkits/jetbrains/core/region/AwsRegionProvider.kt:16 | the first partition with the name, or none exactly when no partition has it |
| AwsRegions.ToAwsRegions | jetbrains-core/src/software/aws/toolkits/jetbrains/core/region/AwsRegionProvider.kt:16-18 | one entry per region key, in order, mapping the key to `AwsRegion(key, description)` |
| AwsRegions.RegionTableEmptyCases | jetbrains-core/src/software/aws/toolkits/jetbrains/core/region/AwsRegionProvider.kt:16-18 | the table is empty when nothing was parsed, there is no partition list, no `aws` partition, or no region table |
| AwsRegions.RegionTableEntries | jetbrains-core/src/software/aws/toolkits/jetbrains/core/region/AwsRegionProvider.kt:16-18 | otherwise the keys of `RegionTable` are the first `aws` partition's region keys, in order, each mapped to `AwsRegion(key, description)` |
| AwsRegions.RegionTableKeyedById | jetbrains-core/src/software/aws/toolkits/jetbrains/core/region/AwsRegionProvider.kt:16-18 | every value's id equals its key, and the keys are distinct |
| AwsRegions.AwsRegionProvider.DefaultRegion | jetbrains-core/src/software/aws/toolkits/jetbrains/core/region/AwsRegionProvider.kt:23-26 | the entry for `us-east-1`, failing exactly when that key is absent |
| AwsRegions.CreateProvider | jetbrains-core/src/software/aws/toolkits/jetbrains/core/region/AwsRegionProvider.kt:10-21 | `regions()` of the new provider is the table built at construction |
| AwsRegions.DefaultRegionOfPartition | jetbrains-core/src/software/aws/toolkits/jetbrains/core/region/AwsRegionProvider.kt:16-26 | the default region exists exactly when the `aws` partition lists `us-east-1`, and then it is `AwsRegion("us-east-1", its description)` |
| CreateLambda.NewCreateLambdaFunction | jetbrains-core/src/software/aws/toolkits/jetbrains/services/lambda/upload/CreateLambdaFunction.kt:20-32 | fails exactly when there is a handler name and no element pointer or no resolver; the pointer is checked first |
| CreateLambda.ConstructWithoutHandlerName | jetbrains-core/src/software/aws/toolkits/jetbrains/services/lambda/upload/CreateLambdaFunction.kt:27 | without a handler name any pointer and resolver are accepted |
| CreateLambda.ConstructedWithHandlerName | jetbrains-core/src/software/aws/toolkits/jetbrains/services/lambda/upload/CreateLambdaFunction.kt:26-32 | a constructed action with a handler name has both a pointer and a resolver |
| CreateLambda.TemplateFunctionHandlers | jetbrains-core/src/software/aws/toolkits/jetbrains/services/lambda/upload/CreateLambdaFunction.kt:55-57 | exactly the non-null handlers of the template functions |
| CreateLambda.NullHandlersContributeNothing | jetbrains-core/src/software/aws/toolkits/jetbrains/services/lambda/upload/CreateLambdaFunction.kt:55-57 | a template function with a null handler adds nothing to the comparison set |
| CreateLambda.UpdateKeepsVisibility | jetbrains-core/src/software/aws/toolkits/jetbrains/services/lambda/upload/CreateLambdaFunction.kt:50-53 | the visibility is unchanged when the handler name, the element or the resolver is null |
| CreateLambda.UpdateVisibleIffNoTemplateFunction | jetbrains-core/src/software/aws/toolkits/jetbrains/services/lambda/upload/CreateLambdaFunction.kt:55-62 | otherwise the action becomes visible exactly when no resolved handler is a template function's handler, and hidden exactly when one is |
| CreateLambda.UpdateWithoutEvent | jetbrains-core/src/software/aws/toolkits/jetbrains/services/lambda/upload/CreateLambdaFunction.kt:62 | without an event there is no presentation to change |

## Left out

- Swing and dialog UI are not modelled. This covers `EnvironmentVariablesDialog`, `EnvVariablesTable`, the dialog's center panel, titles and button texts, `actionPerformed` of the Create-Lambda action, and `EditFunctionPanel.java`. None of them holds logic.
- Processes, futures and threads in the SAM dialog are not modelled: `OSProcessHandler`, `CompletableFuture` chaining, `runInEdt` and the console views. Each stage's outcome is an input instead, and the stages are modelled as running in sequence.
- `Files.createDirectories` is I/O. A failure to create the build directory is not modelled.
- SamDeploy.DeploymentThrows: a failure of `createProcess` (SamDeployDialog.kt:198) or of `Files.createDirectories` (SamDeployDialog.kt:91) is not modelled, so the lemma's "exactly when" covers only the credential and executable failures of `createBaseCommand`. Starting a process is outside the model.
- SamDeploy.CreateBaseCommand: paths are lists of segments rendered with `/` (`PathText`). The source's `Path.toString()` uses the platform's separator, which this model does not vary.
- SamDeploy.DeploymentExecutionFailed: the converse direction assumes `CredentialsFailDistinctly` for the package and deploy stages. The dialog tells errors apart only by their message, so a credential exception with the message `execution_failed` would be indistinguishable.
- SamDeploy.DeploymentChangeSetNotFound: the converse direction assumes `CredentialsFailDistinctly` for the same reason.
- The titles of the log tabs (the `step_name` message keys) are not modelled. A launch records its stage instead.
- The progress fraction of the SAM dialog is not modelled, because it is a floating-point value. Only `progressIndicator.cancel()` is recorded.
- The SAM dialog's constructor with `execute = true` is not modelled as such. It is the constructor followed by `ExecuteDeployment`.
- The SAM executable setting and the resolved credentials are read once per stage, as the source does. The region's variables are fixed when the dialog is created. How a region or credentials become environment variables (`toEnvironmentVariables`) is not part of this model, so those variables are inputs.
- `ExceptionUtil.getMessage` is abstracted. An error carries the message it yields, and the errors the pipeline raises carry their message key. Localization of message keys is not modelled.
- The regular expression for change sets is an abstract function `findChangeSet`.
- YAML parsing is not modelled: `loadYamlFile`, `PsiFileFactory`, `YAMLElementGenerator`. The template is given as a YAML value.
- `text()` of the template is not modelled, because it is the source text of the root mapping and the model has no source text.
- `findChildOfAnyType` is modelled as a pre-order search for the first mapping under the key-value's value.
- `getParentOfType` is an input `parentKey` of `asResource`/`asProperty`.
- YamlCloudFormationTemplate.ValueText: the text of a mapping value is given as `""`. The IDE renders it in its own way, which this model does not reproduce.
- `RESOURCE_MAPPINGS` is not part of this model. Its table is a parameter mapping a type to the name of the typed wrapper, and a resource records that name rather than a wrapper object.
- The `CloudFormationParameter` wrapper that `asProperty` returns is not part of this model. The plain parameter stands for it.
- `resources()`, `parameters()` and `getEnvironmentVariables()` return lazy sequences. The model consumes them fully, so a failing cast becomes the outcome of the whole call. A partial consumer would see the elements before the failure.
- YamlCloudFormationTemplate.Resource.SetScalarProperty: `YAMLElementGenerator.createYamlKeyValue(key, value)` is taken to produce a plain scalar whose text is exactly `value`. That holds for plain values. A value the generator would parse differently (quoted text, one containing `: ` or ` #`, or flow or block syntax) gives another node or text in the source, and the model does not cover it; `SetScalarPropertyThenGet` inherits the assumption.
- `setScalarProperty` on a resource changes the PSI tree in place. The model returns the updated resource as a value, so aliasing between the resource and the tree is not captured.
- EnvironmentVariablesField.EnvironmentVariablesTextField.SetEnvVars: requires distinct keys, which every Kotlin `Map` has.
- Text.IsWhitespace follows the current Unicode Zs/Zl/Zp tables. A JVM with older Unicode data may classify some characters, such as U+180E, differently.
- `AwsRegionProvider.getInstance` and `PartitionLoader.parse` are service lookup and JSON loading. The parsed partitions are an input.
- `CloudFormationTemplateIndex.listFunctions` and `LambdaHandlerResolver.determineHandlers` are foreign services. Their results are inputs of `Update`.
- `FunctionUploadDetails` is a plain record with no invariants, so it is not modelled.
- The telemetry client (`ClientTelemetryComponent.kt`, `ClientTelemetryPublisher.kt`) and `ExceptionUtils.tryOrNull` are outside the modelled core.
