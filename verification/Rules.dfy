/** Conversion rules as a config declares them: one strategy with its parameters.
    A body of Missing stands for a rule that names a strategy but leaves its
    parameter block out. */
module Rules {
  import opened Wrappers

  type Path = string
  type Raw = string // an undecoded JSON value

  datatype Side = OnHub | OnSpoke

  datatype EnumPair = EnumPair(hub: Raw, spoke: Raw)

  datatype PatchOp = PatchOp(op: string, path: string, from: string, value: Option<Raw>)

  datatype When = When(path: Path, equals: Raw)

  datatype Rule = Rule(body: Body, acknowledgeLossy: bool, reason: string, when: Option<When>)

  datatype Body =
    | FieldRename(hub: Path, spoke: Path)
    | ScalarToObject(hub: Path, spoke: Path, key: string, defaults: map<string, Raw>)
    | ObjectToScalar(hub: Path, spoke: Path, key: string, defaults: map<string, Raw>)
    | SingletonArrayToObject(hub: Path, spoke: Path)
    | ObjectToSingletonArray(hub: Path, spoke: Path)
    | FieldsToMap(hubPaths: seq<Path>, spokeMap: Path, keyNames: Option<map<string, string>>, onUnknown: string)
    | MapToFields(hubMap: Path, spokePaths: seq<Path>, keyNames: Option<map<string, string>>, onUnknown: string)
    | ToAnnotation(hub: Path, metaKey: string, serialization: string, reversible: bool)
    | ToLabel(hub: Path, metaKey: string, serialization: string, reversible: bool)
    | FromAnnotation(spoke: Path, metaKey: string, serialization: string, reversible: bool)
    | FromLabel(spoke: Path, metaKey: string, serialization: string, reversible: bool)
    | EnumRemap(path: Path, mapping: seq<EnumPair>, onUnmappedHub: string, onUnmappedSpoke: string)
    | DefaultValue(path: Path, existsOn: Side, value: Raw)
    | Constant(path: Path, existsOn: Side, value: Raw)
    | Delete(path: Path, existsOn: Side)
    | JSONPatch(hubToSpoke: seq<PatchOp>, spokeToHub: seq<PatchOp>, losslessOverride: bool)
    | ForEach(hubItems: Path, spokeItems: Path, rules: seq<Rule>)
    | TypeCoerce(path: Path, onFractional: string)
    | ScalarToFields(hub: Path, spokeFields: map<string, Path>, pattern: string, template: string, losslessOverride: bool)
    | FieldsToScalar(hubFields: map<string, Path>, spoke: Path, pattern: string, template: string, losslessOverride: bool)
    | ArrayToMapByKey(hub: Path, spoke: Path, keyField: string)
    | MapToArrayByKey(hub: Path, spoke: Path, keyField: string)
    | NumericScale(hub: Path, spoke: Path, factor: real)
    | ListJoin(hub: Path, spoke: Path, separator: string)
    | ListSplit(hub: Path, spoke: Path, separator: string)
    | Quantity(hub: Path, spoke: Path)
    | Duration(hub: Path, spoke: Path)
    | MapKeyRename(hub: Path, spoke: Path, renames: map<string, string>)
    | CEL(hubPaths: seq<Path>, spokePaths: seq<Path>, downExpr: string, upExpr: string)
    | BranchMap(hub: Path, spoke: Path)
    | Missing(strategy: string)

  datatype RuleError =
    | MissingParams(strategy: string)
    | JSONLabel
    | Unsupported(strategy: string)
    | NotRewritable(strategy: string)
    | Conflict(hubPath: Path)
    | InRule(index: nat, inner: RuleError)

  datatype SpokeRules = SpokeRules(version: string, rules: seq<Rule>)

  /** A rename written by the tool itself carries no lossy flag, reason or guard. */
  function PlainRename(hub: Path, spoke: Path): Rule {
    Rule(FieldRename(hub, spoke), false, "", None)
  }

  ghost predicate InjectiveMap<K, V>(m: map<K, V>) {
    forall j, k :: j in m && k in m && m[j] == m[k] ==> j == k
  }
}
