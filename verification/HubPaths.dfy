/** api/v1alpha1/rehub.go: the old-hub to new-hub path map of a promotion, and the
    rewriting of the remaining spokes' rules through it. */
module HubPaths {
  import opened Wrappers
  import opened Ordering
  import opened Rules
  import opened Invert

  type PathMap = map<Path, Path>

  /** An unmapped path kept its place on the new hub; the empty path is left alone. */
  function MapPath(m: PathMap, p: Path): Path {
    if p != "" && p in m then m[p] else p
  }

  function MapPaths(m: PathMap, ps: seq<Path>): seq<Path> {
    seq(|ps|, i requires 0 <= i < |ps| => MapPath(m, ps[i]))
  }

  function MapFields(m: PathMap, fields: map<string, Path>): map<string, Path> {
    map k | k in fields :: MapPath(m, fields[k])
  }

  /** First m, then n. */
  function Then(m: PathMap, n: PathMap): PathMap {
    map p | p in m.Keys + n.Keys :: MapPath(n, MapPath(m, p))
  }

  function RewriteBody(b: Body, m: PathMap): Result<Body, RuleError> {
    match b
    case FieldRename(h, s) => Success(FieldRename(MapPath(m, h), s))
    case ScalarToObject(h, s, k, d) => Success(ScalarToObject(MapPath(m, h), s, k, d))
    case ObjectToScalar(h, s, k, d) => Success(ObjectToScalar(MapPath(m, h), s, k, d))
    case SingletonArrayToObject(h, s) => Success(SingletonArrayToObject(MapPath(m, h), s))
    case ObjectToSingletonArray(h, s) => Success(ObjectToSingletonArray(MapPath(m, h), s))
    case FieldsToMap(hs, s, kn, pol) => Success(FieldsToMap(MapPaths(m, hs), s, kn, pol))
    case MapToFields(h, ss, kn, pol) => Success(MapToFields(MapPath(m, h), ss, kn, pol))
    case ToAnnotation(h, k, ser, rev) => Success(ToAnnotation(MapPath(m, h), k, ser, rev))
    case ToLabel(h, k, ser, rev) => Success(ToLabel(MapPath(m, h), k, ser, rev))
    case FromAnnotation(_, _, _, _) => Success(b)
    case FromLabel(_, _, _, _) => Success(b)
    case EnumRemap(p, mapping, onHub, onSpoke) => Success(EnumRemap(MapPath(m, p), mapping, onHub, onSpoke))
    case DefaultValue(p, side, v) => Success(if side == OnHub then DefaultValue(MapPath(m, p), side, v) else b)
    case Constant(p, side, v) => Success(if side == OnHub then Constant(MapPath(m, p), side, v) else b)
    case Delete(p, side) => Success(if side == OnHub then Delete(MapPath(m, p), side) else b)
    case JSONPatch(_, _, _) => Failure(NotRewritable("JSONPatch"))
    case CEL(_, _, _, _) => Failure(NotRewritable("CEL"))
    case ForEach(h, s, rules) => Success(ForEach(MapPath(m, h), s, rules))
    case TypeCoerce(p, frac) => Success(TypeCoerce(MapPath(m, p), frac))
    case ScalarToFields(h, fields, pat, tmpl, l) => Success(ScalarToFields(MapPath(m, h), fields, pat, tmpl, l))
    case FieldsToScalar(fields, s, pat, tmpl, l) => Success(FieldsToScalar(MapFields(m, fields), s, pat, tmpl, l))
    case ArrayToMapByKey(h, s, k) => Success(ArrayToMapByKey(MapPath(m, h), s, k))
    case MapToArrayByKey(h, s, k) => Success(MapToArrayByKey(MapPath(m, h), s, k))
    case NumericScale(h, s, f) => Success(NumericScale(MapPath(m, h), s, f))
    case ListJoin(h, s, sep) => Success(ListJoin(MapPath(m, h), s, sep))
    case ListSplit(h, s, sep) => Success(ListSplit(MapPath(m, h), s, sep))
    case Quantity(h, s) => Success(Quantity(MapPath(m, h), s))
    case Duration(h, s) => Success(Duration(MapPath(m, h), s))
    case MapKeyRename(h, s, renames) => Success(MapKeyRename(MapPath(m, h), s, renames))
    case BranchMap(_, _) => Failure(Unsupported("BranchMap"))
    case Missing(strategy) =>
      // The metadata-to-field strategies return before their parameters are looked at.
      if strategy == "FromAnnotation" || strategy == "FromLabel" then Success(b)
      else if strategy == "JSONPatch" || strategy == "CEL" then Failure(NotRewritable(strategy))
      else Failure(MissingParams(strategy))
  }

  function RewriteHubPaths(r: Rule, m: PathMap): Result<Rule, RuleError> {
    match RewriteBody(r.body, m)
    case Failure(e) => Failure(e)
    case Success(b) => Success(Rule(b, r.acknowledgeLossy, r.reason, r.when))
  }

  /** The spoke-side schema paths a rule claims. */
  function SpokePathsOf(b: Body): set<Path> {
    match b
    case FieldRename(_, s) => {s}
    case ScalarToObject(_, s, _, _) => {s}
    case ObjectToScalar(_, s, _, _) => {s}
    case SingletonArrayToObject(_, s) => {s}
    case ObjectToSingletonArray(_, s) => {s}
    case FieldsToMap(_, s, _, _) => {s}
    case MapToFields(_, ss, _, _) => set p | p in ss
    case ToAnnotation(_, _, _, _) => {}
    case ToLabel(_, _, _, _) => {}
    case FromAnnotation(s, _, _, _) => {s}
    case FromLabel(s, _, _, _) => {s}
    case EnumRemap(p, _, _, _) => {p}
    case DefaultValue(p, side, _) => if side == OnSpoke then {p} else {}
    case Constant(p, side, _) => if side == OnSpoke then {p} else {}
    case Delete(p, side) => if side == OnSpoke then {p} else {}
    case JSONPatch(_, _, _) => {}
    case ForEach(_, s, _) => {s}
    case TypeCoerce(p, _) => {p}
    case ScalarToFields(_, fields, _, _, _) => fields.Values
    case FieldsToScalar(_, s, _, _, _) => {s}
    case ArrayToMapByKey(_, s, _) => {s}
    case MapToArrayByKey(_, s, _) => {s}
    case NumericScale(_, s, _) => {s}
    case ListJoin(_, s, _) => {s}
    case ListSplit(_, s, _) => {s}
    case Quantity(_, s) => {s}
    case Duration(_, s) => {s}
    case MapKeyRename(_, s, _) => {s}
    case CEL(_, ss, _, _) => set p | p in ss
    case BranchMap(_, _) => {}
    case Missing(_) => {}
  }

  // ---- The path map of a promotion ----

  function Diagonal(ps: seq<Path>): seq<(Path, Path)> {
    seq(|ps|, i requires 0 <= i < |ps| => (ps[i], ps[i]))
  }

  /** The hub-to-spoke path pairs one promoted rule contributes. */
  function HubSpokePathPairs(b: Body): Result<seq<(Path, Path)>, RuleError> {
    match b
    case FieldRename(h, s) => Success([(h, s)])
    case ScalarToObject(h, s, _, _) => Success([(h, s)])
    case ObjectToScalar(h, s, _, _) => Success([(h, s)])
    case SingletonArrayToObject(h, s) => Success([(h, s)])
    case ObjectToSingletonArray(h, s) => Success([(h, s)])
    case TypeCoerce(p, _) => Success([(p, p)])
    case EnumRemap(p, _, _, _) => Success([(p, p)])
    case NumericScale(h, s, _) => Success([(h, s)])
    case ListJoin(h, s, _) => Success([(h, s)])
    case ListSplit(h, s, _) => Success([(h, s)])
    case Quantity(h, s) => Success([(h, s)])
    case Duration(h, s) => Success([(h, s)])
    case MapKeyRename(h, s, _) => Success([(h, s)])
    case CEL(_, _, _, _) => Failure(NotRewritable("CEL"))
    case ArrayToMapByKey(h, s, _) => Success([(h, s)])
    case MapToArrayByKey(h, s, _) => Success([(h, s)])
    case ScalarToFields(h, _, _, _, _) => Success([(h, h)])
    case FieldsToScalar(fields, _, _, _, _) => Success(Diagonal(SortedKeys(fields.Values)))
    case FieldsToMap(hs, _, _, _) => Success(Diagonal(hs))
    case MapToFields(h, _, _, _) => Success([(h, h)])
    case ToAnnotation(_, _, _, _) => Success([])
    case ToLabel(_, _, _, _) => Success([])
    case FromAnnotation(_, _, _, _) => Success([])
    case FromLabel(_, _, _, _) => Success([])
    case DefaultValue(_, _, _) => Success([])
    case Constant(_, _, _) => Success([])
    case Delete(_, _) => Success([])
    case JSONPatch(_, _, _) => Failure(NotRewritable("JSONPatch"))
    case ForEach(h, s, _) => Success([(h, s)])
    case BranchMap(_, _) => Failure(Unsupported("BranchMap"))
    case Missing(strategy) =>
      if strategy in {"ToAnnotation", "ToLabel", "FromAnnotation", "FromLabel", "DefaultValue", "Constant", "Delete"}
      then Success([])
      else if strategy == "CEL" || strategy == "JSONPatch" then Failure(NotRewritable(strategy))
      else Failure(MissingParams(strategy))
  }

  /** Adds pairs to the map, refusing one that disagrees with an earlier pair. */
  function AddPairs(m: PathMap, pairs: seq<(Path, Path)>): Result<PathMap, RuleError>
    decreases |pairs|
  {
    if pairs == [] then Success(m)
    else
      var (h, s) := pairs[0];
      if h in m && m[h] != s then Failure(Conflict(h))
      else AddPairs(m[h := s], pairs[1..])
  }

  function PathMapFrom(rules: seq<Rule>, i: nat, m: PathMap): Result<PathMap, RuleError>
    requires i <= |rules|
    decreases |rules| - i
  {
    if i == |rules| then Success(m)
    else
      match HubSpokePathPairs(rules[i].body)
      case Failure(e) => Failure(InRule(i, e))
      case Success(pairs) =>
        match AddPairs(m, pairs)
        case Failure(e) => Failure(e)
        case Success(n) => PathMapFrom(rules, i + 1, n)
  }

  method PathMapFromPromoteRules(rules: seq<Rule>) returns (out: Result<PathMap, RuleError>)
    ensures out == PathMapFrom(rules, 0, map[])
  {
    var m: PathMap := map[];
    for i := 0 to |rules|
      invariant PathMapFrom(rules, 0, map[]) == PathMapFrom(rules, i, m)
    {
      match HubSpokePathPairs(rules[i].body)
      case Failure(e) =>
        return Failure(InRule(i, e));
      case Success(pairs) =>
        ghost var before := m;
        for j := 0 to |pairs|
          invariant AddPairs(before, pairs) == AddPairs(m, pairs[j..])
        {
          var (h, s) := pairs[j];
          assert pairs[j..][0] == pairs[j] && pairs[j..][1..] == pairs[j + 1..];
          if h in m && m[h] != s {
            return Failure(Conflict(h));
          }
          m := m[h := s];
        }
        assert AddPairs(before, pairs) == Success(m);
    }
    return Success(m);
  }

  /** All pairs the rules contribute, or nothing when some rule contributes none. */
  ghost predicate PairsExtracted(rules: seq<Rule>) {
    forall r :: r in rules ==> HubSpokePathPairs(r.body).Success?
  }

  ghost predicate PairOf(rules: seq<Rule>, h: Path, s: Path) {
    exists r :: r in rules && HubSpokePathPairs(r.body).Success? && (h, s) in HubSpokePathPairs(r.body).value
  }

  ghost predicate PairsFunctional(rules: seq<Rule>) {
    forall h, s, t :: PairOf(rules, h, s) && PairOf(rules, h, t) ==> s == t
  }

  ghost predicate Maps(m: PathMap, h: Path, s: Path) {
    h in m && m[h] == s
  }

  lemma {:induction false} AddPairsMeaning(m: PathMap, pairs: seq<(Path, Path)>)
    ensures AddPairs(m, pairs).Success? <==>
            && (forall h, s :: (h, s) in pairs && h in m ==> Maps(m, h, s))
            && (forall h, s, t :: (h, s) in pairs && (h, t) in pairs ==> s == t)
    ensures AddPairs(m, pairs).Success? ==>
              forall h, s :: Maps(AddPairs(m, pairs).value, h, s) <==> Maps(m, h, s) || (h, s) in pairs
    decreases |pairs|
  {
    if pairs == [] {
    } else {
      var (h0, s0) := pairs[0];
      assert (h0, s0) in pairs;
      assert forall x :: x in pairs <==> x == pairs[0] || x in pairs[1..];
      if h0 in m && m[h0] != s0 {
        assert !Maps(m, h0, s0);
      } else {
        var n := m[h0 := s0];
        assert forall h, s :: Maps(n, h, s) <==> Maps(m, h, s) || (h == h0 && s == s0);
        AddPairsMeaning(n, pairs[1..]);
        assert AddPairs(m, pairs) == AddPairs(n, pairs[1..]);
        if AddPairs(m, pairs).Success? {
          forall h, s ensures Maps(AddPairs(m, pairs).value, h, s) <==> Maps(m, h, s) || (h, s) in pairs {
            assert (h, s) in pairs <==> (h == h0 && s == s0) || (h, s) in pairs[1..];
          }
        } else {
          if forall h, s :: (h, s) in pairs[1..] && h in n ==> Maps(n, h, s) {
            var h, s, u :| (h, s) in pairs[1..] && (h, u) in pairs[1..] && s != u;
            assert (h, s) in pairs && (h, u) in pairs;
          } else {
            var h, s :| (h, s) in pairs[1..] && h in n && !Maps(n, h, s);
            assert (h, s) in pairs;
            if h == h0 {
              assert (h, s0) in pairs;
            }
          }
        }
      }
    }
  }

  ghost predicate Consistent(rules: seq<Rule>, m: PathMap) {
    && PairsExtracted(rules)
    && PairsFunctional(rules)
    && forall h, s :: PairOf(rules, h, s) && h in m ==> Maps(m, h, s)
  }

  lemma PairOfCons(r: Rule, rest: seq<Rule>, h: Path, s: Path)
    ensures PairOf([r] + rest, h, s) <==>
            (HubSpokePathPairs(r.body).Success? && (h, s) in HubSpokePathPairs(r.body).value) || PairOf(rest, h, s)
  {
    if HubSpokePathPairs(r.body).Success? && (h, s) in HubSpokePathPairs(r.body).value {
      assert r in [r] + rest;
    }
    if PairOf(rest, h, s) {
      var q :| q in rest && HubSpokePathPairs(q.body).Success? && (h, s) in HubSpokePathPairs(q.body).value;
      assert q in [r] + rest;
    }
  }

  /** One rule's pairs, then the rest: consistency splits along AddPairs. */
  lemma ConsistentCons(r: Rule, rest: seq<Rule>, m: PathMap)
    requires HubSpokePathPairs(r.body).Success?
    ensures var n := AddPairs(m, HubSpokePathPairs(r.body).value);
            Consistent([r] + rest, m) <==> n.Success? && Consistent(rest, n.value)
  {
    var pairs := HubSpokePathPairs(r.body).value;
    AddPairsMeaning(m, pairs);
    forall h, s ensures PairOf([r] + rest, h, s) <==> (h, s) in pairs || PairOf(rest, h, s) {
      PairOfCons(r, rest, h, s);
    }
    assert r in [r] + rest;
    assert forall q :: q in rest ==> q in [r] + rest;
    var n := AddPairs(m, pairs);
    if Consistent([r] + rest, m) {
      forall h, s | (h, s) in pairs && h in m ensures Maps(m, h, s) {
        assert PairOf([r] + rest, h, s);
      }
      forall h, s, u | (h, s) in pairs && (h, u) in pairs ensures s == u {
        assert PairOf([r] + rest, h, s) && PairOf([r] + rest, h, u);
      }
    }
    if n.Success? {
      assert forall h, s :: Maps(n.value, h, s) <==> Maps(m, h, s) || (h, s) in pairs;
      if Consistent([r] + rest, m) {
        forall h, s | PairOf(rest, h, s) && h in n.value ensures Maps(n.value, h, s) {
          assert Maps(n.value, h, n.value[h]);
          if Maps(m, h, n.value[h]) {
            assert Maps(m, h, s);
          } else {
            assert PairOf([r] + rest, h, n.value[h]) && PairOf([r] + rest, h, s);
          }
        }
      }
      if Consistent(rest, n.value) {
        forall h, s, u | PairOf([r] + rest, h, s) && PairOf([r] + rest, h, u) ensures s == u {
          assert (h, s) in pairs ==> Maps(n.value, h, s);
          assert (h, u) in pairs ==> Maps(n.value, h, u);
        }
        forall h, s | PairOf([r] + rest, h, s) && h in m ensures Maps(m, h, s) {
          assert Maps(m, h, m[h]);
          assert Maps(n.value, h, m[h]);
        }
      }
    }
  }

  lemma {:induction false} PathMapFromMeaning(rules: seq<Rule>, i: nat, m: PathMap)
    requires i <= |rules|
    ensures PathMapFrom(rules, i, m).Success? <==> Consistent(rules[i..], m)
    ensures PathMapFrom(rules, i, m).Success? ==>
              forall h, s :: Maps(PathMapFrom(rules, i, m).value, h, s) <==> Maps(m, h, s) || PairOf(rules[i..], h, s)
    decreases |rules| - i
  {
    if i == |rules| {
    } else {
      var r, rest := rules[i], rules[i + 1..];
      assert rules[i..] == [r] + rest;
      var here := HubSpokePathPairs(r.body);
      if here.Success? {
        ConsistentCons(r, rest, m);
        AddPairsMeaning(m, here.value);
        var n := AddPairs(m, here.value);
        if n.Success? {
          PathMapFromMeaning(rules, i + 1, n.value);
          forall h, s ensures PairOf(rules[i..], h, s) <==> (h, s) in here.value || PairOf(rest, h, s) {
            PairOfCons(r, rest, h, s);
          }
        }
      } else {
        assert r in rules[i..];
      }
    }
  }

  /** The map is built exactly when every rule yields its pairs and together they
      form a function, and then it is that function. */
  lemma PathMapSucceedsExactly(rules: seq<Rule>)
    ensures PathMapFrom(rules, 0, map[]).Success? <==> PairsExtracted(rules) && PairsFunctional(rules)
    ensures PathMapFrom(rules, 0, map[]).Success? ==>
              forall h, s :: Maps(PathMapFrom(rules, 0, map[]).value, h, s) <==> PairOf(rules, h, s)
  {
    PathMapFromMeaning(rules, 0, map[]);
    assert rules[0..] == rules;
  }

  lemma SameMap(a: PathMap, b: PathMap)
    requires forall h, s :: Maps(a, h, s) <==> Maps(b, h, s)
    ensures a == b
  {
    forall h ensures h in a <==> h in b {
      if h in a { assert Maps(a, h, a[h]); }
      if h in b { assert Maps(b, h, b[h]); }
    }
    forall h | h in a ensures a[h] == b[h] {
      assert Maps(a, h, a[h]);
    }
  }

  /** Neither success nor the map depends on the order, or repetition, of the rules. */
  lemma PathMapOrderFree(rules: seq<Rule>, others: seq<Rule>)
    requires forall r :: r in rules <==> r in others
    ensures PathMapFrom(rules, 0, map[]).Success? == PathMapFrom(others, 0, map[]).Success?
    ensures PathMapFrom(rules, 0, map[]).Success? ==> PathMapFrom(rules, 0, map[]) == PathMapFrom(others, 0, map[])
  {
    PathMapSucceedsExactly(rules);
    PathMapSucceedsExactly(others);
    assert forall h, s :: PairOf(rules, h, s) <==> PairOf(others, h, s);
    if PathMapFrom(rules, 0, map[]).Success? {
      SameMap(PathMapFrom(rules, 0, map[]).value, PathMapFrom(others, 0, map[]).value);
    }
  }

  // ---- Laws of rewriting ----

  lemma MapPathThen(m: PathMap, n: PathMap, p: Path)
    ensures MapPath(Then(m, n), p) == MapPath(n, MapPath(m, p))
  {
  }

  lemma MapPathsThen(m: PathMap, n: PathMap, ps: seq<Path>)
    ensures MapPaths(Then(m, n), ps) == MapPaths(n, MapPaths(m, ps))
  {
    forall i | 0 <= i < |ps| ensures MapPaths(Then(m, n), ps)[i] == MapPaths(n, MapPaths(m, ps))[i] {
      MapPathThen(m, n, ps[i]);
    }
  }

  lemma MapFieldsThen(m: PathMap, n: PathMap, fields: map<string, Path>)
    ensures MapFields(Then(m, n), fields) == MapFields(n, MapFields(m, fields))
  {
    forall k | k in fields ensures MapFields(Then(m, n), fields)[k] == MapFields(n, MapFields(m, fields))[k] {
      MapPathThen(m, n, fields[k]);
    }
  }

  /** The paths by which a rule names hub fields; those of nested rules name item fields. */
  function HubPathsOf(b: Body): set<Path> {
    match b
    case FieldRename(h, _) => {h}
    case ScalarToObject(h, _, _, _) => {h}
    case ObjectToScalar(h, _, _, _) => {h}
    case SingletonArrayToObject(h, _) => {h}
    case ObjectToSingletonArray(h, _) => {h}
    case FieldsToMap(hs, _, _, _) => set p | p in hs
    case MapToFields(h, _, _, _) => {h}
    case ToAnnotation(h, _, _, _) => {h}
    case ToLabel(h, _, _, _) => {h}
    case EnumRemap(p, _, _, _) => {p}
    case DefaultValue(p, side, _) => if side == OnHub then {p} else {}
    case Constant(p, side, _) => if side == OnHub then {p} else {}
    case Delete(p, side) => if side == OnHub then {p} else {}
    case ForEach(h, _, _) => {h}
    case TypeCoerce(p, _) => {p}
    case ScalarToFields(h, _, _, _, _) => {h}
    case FieldsToScalar(fields, _, _, _, _) => fields.Values
    case ArrayToMapByKey(h, _, _) => {h}
    case MapToArrayByKey(h, _, _) => {h}
    case NumericScale(h, _, _) => {h}
    case ListJoin(h, _, _) => {h}
    case ListSplit(h, _, _) => {h}
    case Quantity(h, _) => {h}
    case Duration(h, _) => {h}
    case MapKeyRename(h, _, _) => {h}
    case _ => {}
  }

  ghost predicate Unmoved(paths: set<Path>, m: PathMap) {
    forall p :: p in paths ==> MapPath(m, p) == p
  }

  /** Rewriting changes nothing if and only if the map moves none of the rule's hub paths. */
  lemma KeptExactly(b: Body, m: PathMap)
    requires RewriteBody(b, m).Success?
    ensures RewriteBody(b, m) == Success(b) <==> Unmoved(HubPathsOf(b), m)
  {
    hide MapPath;
    if SwapsPaths(b) {
      KeptSwaps(b, m);
    } else {
      KeptOthers(b, m);
    }
  }

  lemma KeptSwaps(b: Body, m: PathMap)
    requires SwapsPaths(b) && RewriteBody(b, m).Success?
    ensures RewriteBody(b, m) == Success(b) <==> Unmoved(HubPathsOf(b), m)
  {
    hide MapPath, MapFields;
    if b.FieldsToScalar? {
      MapKept(b.hubFields, m);
    }
  }

  lemma KeptOthers(b: Body, m: PathMap)
    requires !SwapsPaths(b) && RewriteBody(b, m).Success?
    ensures RewriteBody(b, m) == Success(b) <==> Unmoved(HubPathsOf(b), m)
  {
    hide MapPath, MapPaths;
    if b.FieldsToMap? {
      SeqKept(b.hubPaths, m);
    }
  }

  lemma MapKept(fields: map<string, Path>, m: PathMap)
    ensures MapFields(m, fields) == fields <==> Unmoved(fields.Values, m)
  {
    if MapFields(m, fields) == fields {
      forall p | p in fields.Values ensures MapPath(m, p) == p {
        var k :| k in fields && fields[k] == p;
        assert MapFields(m, fields)[k] == MapPath(m, p);
      }
    }
    if Unmoved(fields.Values, m) {
      forall k | k in fields ensures MapPath(m, fields[k]) == fields[k] {
        assert fields[k] in fields.Values;
      }
    }
  }

  lemma SeqKept(ps: seq<Path>, m: PathMap)
    ensures MapPaths(m, ps) == ps <==> Unmoved((set p | p in ps), m)
  {
    if MapPaths(m, ps) == ps {
      forall p | p in ps ensures MapPath(m, p) == p {
        var i :| 0 <= i < |ps| && ps[i] == p;
        assert MapPaths(m, ps)[i] == MapPath(m, p);
      }
    }
    if Unmoved((set p | p in ps), m) {
      forall i | 0 <= i < |ps| ensures MapPath(m, ps[i]) == ps[i] {
        assert ps[i] in ps;
      }
    }
  }

  lemma RewriteByEmpty(b: Body)
    requires RewriteBody(b, map[]).Success?
    ensures RewriteBody(b, map[]) == Success(b)
  {
    KeptExactly(b, map[]);
  }

  /** Rewriting does not fail because of the map, only because of the rule. */
  lemma RewriteSuccessIsStrategy(b: Body, m: PathMap, n: PathMap)
    ensures RewriteBody(b, m).Success? == RewriteBody(b, n).Success?
    ensures RewriteBody(b, m).Success? ==>
              RewriteBody(RewriteBody(b, m).value, n).Success?
  {
  }

  /** Two promotions in a row rewrite a rule like one promotion along the composed map. */
  lemma RewriteCompose(b: Body, m: PathMap, n: PathMap)
    requires RewriteBody(b, m).Success?
    ensures RewriteBody(RewriteBody(b, m).value, n) == RewriteBody(b, Then(m, n))
  {
    if b.FieldsToMap? {
      MapPathsThen(m, n, b.hubPaths);
    } else if b.FieldsToScalar? {
      MapFieldsThen(m, n, b.hubFields);
    } else if SwapsPaths(b) && !b.CEL? {
      RewriteComposeSwaps(b, m, n);
    } else {
      RewriteComposeRest(b, m, n);
    }
  }

  lemma RewriteComposeSwaps(b: Body, m: PathMap, n: PathMap)
    requires SwapsPaths(b) && !b.FieldsToScalar? && !b.CEL?
    ensures RewriteBody(b, m).Success?
    ensures RewriteBody(RewriteBody(b, m).value, n) == RewriteBody(b, Then(m, n))
  {
    hide RewriteBody;
    if b.ListJoin? || b.ListSplit? || b.Quantity? || b.Duration? || b.ScalarToFields? {
      RewriteComposeValues(b, m, n);
    } else {
      RewriteComposeShapes(b, m, n);
    }
  }

  lemma RewriteComposeValues(b: Body, m: PathMap, n: PathMap)
    requires b.ListJoin? || b.ListSplit? || b.Quantity? || b.Duration? || b.ScalarToFields?
    ensures RewriteBody(b, m).Success?
    ensures RewriteBody(RewriteBody(b, m).value, n) == RewriteBody(b, Then(m, n))
  {
    hide MapPaths, MapFields, MapPath, Then;
    MapPathThen(m, n, b.hub);
  }

  lemma RewriteComposeShapes(b: Body, m: PathMap, n: PathMap)
    requires b.FieldRename? || b.ScalarToObject? || b.ObjectToScalar? || b.SingletonArrayToObject? ||
             b.ObjectToSingletonArray? || b.ArrayToMapByKey? || b.MapToArrayByKey? || b.NumericScale?
    ensures RewriteBody(b, m).Success?
    ensures RewriteBody(RewriteBody(b, m).value, n) == RewriteBody(b, Then(m, n))
  {
    MapPathThen(m, n, b.hub);
  }

  lemma RewriteComposeRest(b: Body, m: PathMap, n: PathMap)
    requires !(SwapsPaths(b) && !b.CEL?) && !b.FieldsToMap?
    requires RewriteBody(b, m).Success?
    ensures RewriteBody(RewriteBody(b, m).value, n) == RewriteBody(b, Then(m, n))
  {
    hide MapPath, Then, MapPaths, MapFields;
    match b
    case MapToFields(h, _, _, _) => MapPathThen(m, n, h);
    case ToAnnotation(h, _, _, _) => MapPathThen(m, n, h);
    case ToLabel(h, _, _, _) => MapPathThen(m, n, h);
    case EnumRemap(p, _, _, _) => MapPathThen(m, n, p);
    case DefaultValue(p, _, _) => MapPathThen(m, n, p);
    case Constant(p, _, _) => MapPathThen(m, n, p);
    case Delete(p, _) => MapPathThen(m, n, p);
    case ForEach(h, _, _) => MapPathThen(m, n, h);
    case TypeCoerce(p, _) => MapPathThen(m, n, p);
    case MapKeyRename(h, _, _) => MapPathThen(m, n, h);
    case _ =>
  }

  /** A strategy whose one path names both sides at once. */
  predicate SinglePath(b: Body) {
    b.TypeCoerce? || b.EnumRemap?
  }

  /** Rewriting the hub side leaves the claimed spoke paths alone, except for a
      single-path rule on a remapped path, which drags the spoke side along. */
  lemma ClaimedSpokePathsKept(b: Body, m: PathMap)
    requires RewriteBody(b, m).Success?
    ensures SpokePathsOf(RewriteBody(b, m).value) == SpokePathsOf(b)
            <==> (SinglePath(b) ==> MapPath(m, b.path) == b.path)
  {
    if SinglePath(b) && MapPath(m, b.path) != b.path {
      assert b.path in SpokePathsOf(b);
      assert b.path !in SpokePathsOf(RewriteBody(b, m).value);
    }
  }
}
