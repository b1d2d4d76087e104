# Service resource schema of the Function Compute deploy tool

`lib/validate/schema/service-resource.js` defines `serviceResourceSchema`, a JSON
Schema (draft-07) document with `$id` `/Resources/Service`. It accepts an object
whose `Type` member is the string `Aliyun::Serverless::Service`, with an optional
`Properties` object and nested function entries. This project models that document
and the accept/reject relation it defines, and proves what it accepts and what it
leaves unchecked.

The model has four layers:

- `Json` (`json.dfy`): parsed JSON values. An object is a `map<string, Json>`.
- `Pattern` (`pattern.dfy`): the fragment of ECMA-262 regular expressions that the
  schema's `patternProperties` key uses. It covers `^`, `$`, a negative lookahead
  over literal alternatives, and a character class with a `{min,max}` quantifier.
  `Search` is the unanchored search that JSON Schema prescribes.
- `JsonSchema` (`json_schema.dfy`): the draft-07 keywords the document uses, as
  a datatype, with the validator's relation `Valid`. The keywords are `type`,
  `const`, `properties`, `patternProperties`, `required`, `items`, `oneOf`,
  `$ref`, and the annotations `$id` and `description`. `oneOf` holds when exactly
  one branch validates, counted by `CountValid`. A `$ref` is answered by a
  `resolve` parameter. The role and function schemas it names
  (`/Resources/Service/Role`, `/Resources/Service/Function`) are registered
  elsewhere and are not part of this model.
- `ServiceSchema` (`service_schema.dfy`) is the document itself, written as a
  value of that vocabulary, keyword for keyword. `ServiceResource`
  (`service_resource.dfy`) gives an independent, direct reading of what an
  acceptable service entry is (`ValidService`, with `IsFunctionKey` for the
  function-name pattern). It also proves that the schema value accepts exactly
  those entries. `ServiceGuarantees` (`service_guarantees.dfy`) states the
  schema's guarantees and its gaps as lemmas about the schema value.

The lookahead `(?!Type|Properties)` excludes every name that *begins* with `Type`
or `Properties`, not only those two names, so `TypeFoo` is never checked as a
function. Names that fail the pattern, such as `1abc` or a 129-character name, are
accepted without any check. `Role` is only a string; the union of a policy name,
a role document and a list of those belongs to `Policies`.

## Model

| member | source | states |
|---|---|---|
| `Pattern.AnchoredSearch` | lib/validate/schema/service-resource.js:60 | a pattern that starts with `^` is found in a name iff it matches at position 0 |
| `Pattern.RepeatToEnd` | lib/validate/schema/service-resource.js:60 | `cls{min,max}$` matches the rest of a name iff that rest has min..max characters, all in the class |
| `JsonSchema.OneOfTwo` | lib/validate/schema/service-resource.js:28-31 | a two-branch `oneOf` holds iff exactly one branch validates (exclusive or) |
| `JsonSchema.OneOfThree` | lib/validate/schema/service-resource.js:22-34 | a three-branch `oneOf` holds iff exactly one of the three branches validates |
| `ServiceResource.NameStartMeaning` | lib/validate/schema/service-resource.js:60 | `[a-zA-Z_]` holds exactly the ASCII letters and `_` |
| `ServiceResource.NamePartMeaning` | lib/validate/schema/service-resource.js:60 | `[a-zA-Z0-9_-]` holds exactly the ASCII letters, digits, `_` and `-` |
| `ServiceResource.LookaheadMeaning` | lib/validate/schema/service-resource.js:60 | the negative lookahead of the pattern fails exactly on names with prefix `Type` or `Properties` |
| `ServiceResource.FunctionKeyPatternMeaning` | lib/validate/schema/service-resource.js:59-63 | the pattern matches a name iff it is 1 to 128 characters, starts with a letter or `_`, continues with letters, digits, `_` or `-`, and starts with neither `Type` nor `Properties` |
| `ServiceResource.StringSchemaMeaning` | lib/validate/schema/service-resource.js:15-20 | `{type: string}` accepts exactly the strings |
| `ServiceResource.PolicySchemaMeaning` | lib/validate/schema/service-resource.js:27-32 | a policy-list element is accepted iff it is a string or a role document, but not both |
| `ServiceResource.PoliciesSchemaMeaning` | lib/validate/schema/service-resource.js:21-35 | `Policies` is accepted iff exactly one holds of: a string, a role document, a list of valid elements |
| `ServiceResource.VpcConfigMembersMeaning` | lib/validate/schema/service-resource.js:41-45 | the `properties` of `VpcConfig` hold iff each present member is well typed (`VSwitchIds` a list of strings) |
| `ServiceResource.VpcConfigSchemaMeaning` | lib/validate/schema/service-resource.js:39-47 | `VpcConfig` is accepted iff it is an object with all three members, each well typed |
| `ServiceResource.LogConfigSchemaMeaning` | lib/validate/schema/service-resource.js:48-55 | `LogConfig` is accepted iff it is an object with `Project` and `Logstore`, both strings |
| `ServiceResource.PropertiesMembersMeaning` | lib/validate/schema/service-resource.js:14-56 | the `properties` of `Properties` hold iff each of the six known members, when present, is valid |
| `ServiceResource.PropertiesSchemaMeaning` | lib/validate/schema/service-resource.js:12-57 | `Properties` is accepted iff it is an object whose known members are valid |
| `ServiceResource.ServiceMembersMeaning` | lib/validate/schema/service-resource.js:7-58 | the top-level `properties` hold iff a present `Type` is the service type string and a present `Properties` is valid |
| `ServiceResource.FunctionMembersMeaning` | lib/validate/schema/service-resource.js:59-63 | `patternProperties` holds iff every member whose name is a function name holds a valid function |
| `ServiceResource.ServiceSchemaMeaning` | lib/validate/schema/service-resource.js:3-65 | the whole schema accepts an entry iff the direct reading `ValidService` does, for any role and function schemas |
| `ServiceGuarantees.Meaning` | lib/validate/schema/service-resource.js:3-65 | the same equivalence, with the role and function schemas taken from the `$ref` resolver |
| `ServiceGuarantees.AcceptedHasServiceType` | lib/validate/schema/service-resource.js:4-64 | an accepted entry is an object with `Type` equal to `Aliyun::Serverless::Service` |
| `ServiceGuarantees.TypeAloneAccepted` | lib/validate/schema/service-resource.js:64 | `{Type: "Aliyun::Serverless::Service"}` is accepted: only `Type` is required |
| `ServiceGuarantees.AcceptedPropertiesTyped` | lib/validate/schema/service-resource.js:12-38 | in an accepted entry, `Properties` is an object; `Description` and `Role` are strings and `InternetAccess` a boolean when present |
| `ServiceGuarantees.RoleDocumentAsRoleRejected` | lib/validate/schema/service-resource.js:18-20 | `Role` has no union form: an object there is rejected |
| `ServiceGuarantees.EmptyPropertiesAccepted` | lib/validate/schema/service-resource.js:12-56 | an empty `Properties` object is accepted: an absent `VpcConfig` or `LogConfig` is fine |
| `ServiceGuarantees.PoliciesExactlyOne` | lib/validate/schema/service-resource.js:21-35 | `Policies` is accepted iff exactly one of its three forms matches, in terms of the role resolver |
| `ServiceGuarantees.PolicyNameThatIsRoleRejected` | lib/validate/schema/service-resource.js:22-24 | a string that the role schema also accepts is rejected |
| `ServiceGuarantees.PolicyNameAccepted` | lib/validate/schema/service-resource.js:22-24 | a string that the role schema does not accept is accepted |
| `ServiceGuarantees.PolicyListMeaning` | lib/validate/schema/service-resource.js:25-33 | a list that is not a role document is accepted iff every element is a string or a role document, but not both |
| `ServiceGuarantees.PolicyListWithAmbiguousElementRejected` | lib/validate/schema/service-resource.js:22-34 | a list that is not itself a role document, with an element that is both a string and a role document, is rejected |
| `ServiceGuarantees.OtherPoliciesAreRoles` | lib/validate/schema/service-resource.js:22-34 | a value that is neither a string nor a list is accepted iff the role schema accepts it |
| `ServiceGuarantees.VpcConfigMissingMemberRejected` | lib/validate/schema/service-resource.js:46 | a `VpcConfig` missing `VpcId`, `VSwitchIds` or `SecurityGroupId` is rejected |
| `ServiceGuarantees.CompleteVpcConfigAccepted` | lib/validate/schema/service-resource.js:39-47 | a `VpcConfig` with the three members, well typed, is accepted |
| `ServiceGuarantees.LogConfigMissingMemberRejected` | lib/validate/schema/service-resource.js:54 | a `LogConfig` missing `Project` or `Logstore` is rejected |
| `ServiceGuarantees.AcceptedGroupsComplete` | lib/validate/schema/service-resource.js:39-55 | in an accepted entry, a present `VpcConfig` has all three members and a present `LogConfig` both |
| `ServiceGuarantees.AcceptedFunctionsChecked` | lib/validate/schema/service-resource.js:59-63 | in an accepted entry, every member with a function name satisfies the function schema |
| `ServiceGuarantees.ReservedPrefixesNeverMatch` | lib/validate/schema/service-resource.js:60 | no name beginning with `Type` or `Properties` matches the function-name pattern |
| `ServiceGuarantees.FunctionKeyExamples` | lib/validate/schema/service-resource.js:60 | `Type`, `Properties`, `TypeFoo`, `Properties_x`, `1abc`, the empty name and a 129-character name do not match; `Typ`, `_my-func_2` and a 128-character name do |
| `ServiceGuarantees.OtherMembersUnchecked` | lib/validate/schema/service-resource.js:3-65 | adding or replacing a top-level member that is not `Type`, not `Properties` and not a function name never changes the verdict |
| `ServiceGuarantees.OtherPropertiesUnchecked` | lib/validate/schema/service-resource.js:12-57 | adding or replacing an unknown member of `Properties` never changes the verdict |
| `ServiceGuarantees.OtherVpcConfigMembersUnchecked` | lib/validate/schema/service-resource.js:39-47 | adding or replacing an unknown member of `VpcConfig` never changes the verdict |
| `ServiceGuarantees.OtherLogConfigMembersUnchecked` | lib/validate/schema/service-resource.js:48-55 | adding or replacing an unknown member of `LogConfig` never changes the verdict |

## Left out

- The role and function schemas (`/Resources/Service/Role`, `/Resources/Service/Function`) are not part of this model. Every `$ref` is answered by a `resolve` parameter.
- The validator library's error reporting is not modelled: error paths, messages, and collecting every violation in one pass. Only the accept/reject verdict is.
- `$id` only names the document. Resolving references against base URIs is not modelled.
- Only the draft-07 keywords this document uses are modelled. The array (tuple) form of `items` and the type name `integer` are not.
- Only the fragment of ECMA-262 patterns used here is modelled. Names are sequences of Dafny `char`, not UTF-16 code units; this makes no difference, because the pattern only accepts ASCII.
- JSON numbers are Dafny `real`s rather than IEEE doubles; no keyword in this schema looks at a number.
- The caller of this schema is not part of this model: where the validator is invoked, and how a template entry is routed to this schema, are not in the modelled file.
- The rest of the deploy tool is not part of this model: template normalisation, dependency ordering, remote reconciliation with retries, and result aggregation. `test/deploy/deploy-by-tpl.test.js` and `test/commands/config.test.js` exercise that code with mocked remote calls, the file system and prompts.
