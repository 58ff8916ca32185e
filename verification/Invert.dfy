/** api/v1alpha1/rehub.go: turning a promoted spoke's rules round so that they
    describe the old hub as a spoke of the new one. */
module Invert {
  import opened Wrappers
  import opened Ordering
  import opened Rules

  function FlipSide(s: Side): Side {
    if s == OnHub then OnSpoke else OnHub
  }

  /** Key names survive only for the listed paths; an absent map stays absent. */
  function InvertKeyNames(paths: seq<Path>, keyNames: Option<map<string, string>>): Option<map<string, string>> {
    match keyNames
    case None => None
    case Some(m) => Some(map p | p in m && p in paths :: m[p])
  }

  function SwapPair(p: EnumPair): EnumPair {
    EnumPair(p.spoke, p.hub)
  }

  function SwapPairs(mapping: seq<EnumPair>): seq<EnumPair> {
    seq(|mapping|, i requires 0 <= i < |mapping| => SwapPair(mapping[i]))
  }

  function KeysFor(renames: map<string, string>, v: string): (ks: set<string>)
    ensures forall k :: k in ks <==> k in renames && renames[k] == v
  {
    set k | k in renames && renames[k] == v
  }

  /** The reversed key map. When two keys share a value the Go map range decides
      which one wins; the model lets the least key win, and no result below
      depends on that choice. */
  function ReverseRenames(renames: map<string, string>): (rev: map<string, string>)
    ensures rev.Keys == renames.Values
    ensures forall v :: v in rev ==> rev[v] in renames && renames[rev[v]] == v
  {
    assert forall v :: v in renames.Values ==> exists k :: k in renames && renames[k] == v;
    map v | v in renames.Values ::
      (var ks := KeysFor(renames, v);
       assert ks != {} by { var k :| k in renames && renames[k] == v; assert k in ks; }
       Least(ks))
  }

  function InvertBody(b: Body): Result<Body, RuleError>
    decreases b, 0
  {
    match b
    case FieldRename(h, s) => Success(FieldRename(s, h))
    case ScalarToObject(h, s, k, d) => Success(ObjectToScalar(s, h, k, d))
    case ObjectToScalar(h, s, k, d) => Success(ScalarToObject(s, h, k, d))
    case SingletonArrayToObject(h, s) => Success(ObjectToSingletonArray(s, h))
    case ObjectToSingletonArray(h, s) => Success(SingletonArrayToObject(s, h))
    case FieldsToMap(hs, s, kn, pol) => Success(MapToFields(s, hs, InvertKeyNames(hs, kn), pol))
    case MapToFields(h, ss, kn, pol) => Success(FieldsToMap(ss, h, InvertKeyNames(ss, kn), pol))
    case ToAnnotation(h, k, ser, rev) => Success(FromAnnotation(h, k, ser, rev))
    case ToLabel(h, k, ser, rev) =>
      if ser == "JSON" then Failure(JSONLabel)
      else Success(FromLabel(h, k, if ser == "" then "String" else ser, rev))
    case FromAnnotation(s, k, ser, rev) => Success(ToAnnotation(s, k, ser, rev))
    case FromLabel(s, k, ser, rev) => Success(ToLabel(s, k, ser, rev))
    case EnumRemap(p, m, onHub, onSpoke) => Success(EnumRemap(p, SwapPairs(m), onSpoke, onHub))
    case DefaultValue(p, side, v) => Success(DefaultValue(p, FlipSide(side), v))
    case Constant(p, side, v) => Success(Constant(p, FlipSide(side), v))
    case Delete(p, side) => Success(Delete(p, FlipSide(side)))
    case JSONPatch(down, up, lossless) => Success(JSONPatch(up, down, lossless))
    case ForEach(h, s, rules) =>
      (match InvertFrom(rules, 0)
       case Failure(e) => Failure(e)
       case Success(nested) => Success(ForEach(s, h, nested)))
    case TypeCoerce(p, frac) => Success(TypeCoerce(p, frac))
    case ScalarToFields(h, fields, pat, tmpl, lossless) => Success(FieldsToScalar(fields, h, pat, tmpl, lossless))
    case FieldsToScalar(fields, s, pat, tmpl, lossless) => Success(ScalarToFields(s, fields, pat, tmpl, lossless))
    case ArrayToMapByKey(h, s, k) => Success(MapToArrayByKey(s, h, k))
    case MapToArrayByKey(h, s, k) => Success(ArrayToMapByKey(s, h, k))
    case NumericScale(h, s, factor) => Success(NumericScale(s, h, factor))
    case ListJoin(h, s, sep) => Success(ListSplit(s, h, sep))
    case ListSplit(h, s, sep) => Success(ListJoin(s, h, sep))
    case Quantity(h, s) => Success(Quantity(s, h))
    case Duration(h, s) => Success(Duration(s, h))
    case MapKeyRename(h, s, renames) => Success(MapKeyRename(s, h, ReverseRenames(renames)))
    case CEL(hs, ss, down, up) => Success(CEL(ss, hs, up, down))
    case BranchMap(_, _) => Failure(Unsupported("BranchMap"))
    case Missing(strategy) => Failure(MissingParams(strategy))
  }

  function InvertRule(r: Rule): Result<Rule, RuleError>
    decreases r
  {
    match InvertBody(r.body)
    case Failure(e) => Failure(e)
    case Success(b) => Success(Rule(b, r.acknowledgeLossy, r.reason, r.when))
  }

  /** Inverts rules[i..], naming the first rule that fails. */
  function InvertFrom(rules: seq<Rule>, i: nat): (out: Result<seq<Rule>, RuleError>)
    requires i <= |rules|
    ensures out.Success? ==> |out.value| == |rules| - i
    ensures out.Success? ==> forall k :: i <= k < |rules| ==> InvertRule(rules[k]) == Success(out.value[k - i])
    ensures out.Failure? ==> exists k :: i <= k < |rules| && InvertRule(rules[k]).Failure?
    decreases rules, |rules| - i
  {
    if i == |rules| then Success([])
    else
      match InvertRule(rules[i])
      case Failure(e) => Failure(InRule(i, e))
      case Success(inv) => Prepend([inv], InvertFrom(rules, i + 1))
  }

  method InvertRules(rules: seq<Rule>) returns (out: Result<seq<Rule>, RuleError>)
    ensures out == InvertFrom(rules, 0)
  {
    var inverted: seq<Rule> := [];
    PrependNothing(InvertFrom(rules, 0));
    for i := 0 to |rules|
      invariant InvertFrom(rules, 0) == Prepend(inverted, InvertFrom(rules, i))
    {
      match InvertRule(rules[i])
      case Failure(e) =>
        return Failure(InRule(i, e));
      case Success(inv) =>
        PrependMore(inverted, inv, InvertFrom(rules, i + 1));
        inverted := inverted + [inv];
    }
    PrependEnd(inverted, InvertFrom(rules, |rules|));
    return Success(inverted);
  }

  // ---- When inverting twice gives the rule back ----

  /** What a rule must satisfy for a second inversion to restore it exactly. */
  ghost predicate Canonical(b: Body)
    decreases b, 0
  {
    match b
    case FieldsToMap(hs, _, Some(m), _) => forall p :: p in m ==> p in hs
    case MapToFields(_, ss, Some(m), _) => forall p :: p in m ==> p in ss
    case ToLabel(_, _, ser, _) => ser != ""
    case FromLabel(_, _, ser, _) => ser != "" && ser != "JSON"
    case MapKeyRename(_, _, renames) => InjectiveMap(renames)
    case ForEach(_, _, rules) => forall r :: r in rules ==> Canonical(r.body)
    case _ => true
  }

  lemma SwapPairsTwice(m: seq<EnumPair>)
    ensures SwapPairs(SwapPairs(m)) == m
  {
  }

  lemma ReverseTwice(renames: map<string, string>)
    ensures ReverseRenames(ReverseRenames(renames)) == renames <==> InjectiveMap(renames)
  {
    var rev := ReverseRenames(renames);
    var back := ReverseRenames(rev);
    if InjectiveMap(renames) {
      forall k | k in renames ensures k in rev.Values && back[k] == renames[k] {
        assert renames[k] in rev;
        assert rev[renames[k]] == k;
        assert rev[back[k]] == k;
        assert renames[rev[back[k]]] == back[k];
      }
      forall k | k in back ensures k in renames {
        var v :| v in rev && rev[v] == k;
      }
      assert back.Keys == renames.Keys;
    }
    if back == renames {
      forall j, k | j in renames && k in renames && renames[j] == renames[k] ensures j == k {
        assert rev[back[j]] == j && rev[back[k]] == k;
      }
    }
  }

  lemma KeyNamesKept(paths: seq<Path>, m: map<string, string>)
    ensures InvertKeyNames(paths, InvertKeyNames(paths, Some(m))) == Some(m) <==> forall p :: p in m ==> p in paths
  {
    var once := InvertKeyNames(paths, Some(m)).value;
    var twice := InvertKeyNames(paths, Some(once)).value;
    if forall p :: p in m ==> p in paths {
      assert once == m && twice == m;
    } else {
      var p :| p in m && p !in paths;
      assert p !in twice;
    }
  }

  /** The strategies whose inversion only swaps paths and changes name. */
  predicate SwapsPaths(b: Body) {
    b.FieldRename? || b.ScalarToObject? || b.ObjectToScalar? || b.SingletonArrayToObject? ||
    b.ObjectToSingletonArray? || b.ArrayToMapByKey? || b.MapToArrayByKey? || b.NumericScale? ||
    b.ListJoin? || b.ListSplit? || b.Quantity? || b.Duration? || b.CEL? ||
    b.ScalarToFields? || b.FieldsToScalar?
  }

  lemma SwapsPathsTwice(b: Body)
    requires SwapsPaths(b)
    ensures InvertBody(b).Success?
    ensures InvertBody(InvertBody(b).value) == Success(b)
  {
    hide InvertBody;
    if b.ListJoin? || b.ListSplit? || b.Quantity? || b.Duration? || b.CEL? || b.ScalarToFields? || b.FieldsToScalar? {
      ValuesTwice(b);
    } else {
      ShapesTwice(b);
    }
  }

  lemma ShapesTwice(b: Body)
    requires b.FieldRename? || b.ScalarToObject? || b.ObjectToScalar? || b.SingletonArrayToObject? ||
             b.ObjectToSingletonArray? || b.ArrayToMapByKey? || b.MapToArrayByKey? || b.NumericScale?
    ensures InvertBody(b).Success?
    ensures InvertBody(InvertBody(b).value) == Success(b)
  {
  }

  lemma ValuesTwice(b: Body)
    requires b.ListJoin? || b.ListSplit? || b.Quantity? || b.Duration? || b.CEL? || b.ScalarToFields? || b.FieldsToScalar?
    ensures InvertBody(b).Success?
    ensures InvertBody(InvertBody(b).value) == Success(b)
  {
  }

  lemma MetadataTwice(b: Body)
    requires b.ToAnnotation? || b.ToLabel? || b.FromAnnotation? || b.FromLabel?
    requires InvertBody(b).Success?
    ensures InvertBody(InvertBody(b).value) == Success(b) <==> Canonical(b)
  {
  }

  /** Promoting a version and promoting back restores every rule, exactly for the
      rules whose key names are all listed, whose renames are injective and whose
      label serialization is written out as something other than JSON. */
  lemma {:induction false} InvertTwice(b: Body)
    requires InvertBody(b).Success?
    ensures InvertBody(InvertBody(b).value) == Success(b) <==> Canonical(b)
    decreases b, 1
  {
    if SwapsPaths(b) {
      SwapsPathsTwice(b);
    } else if b.ToAnnotation? || b.ToLabel? || b.FromAnnotation? || b.FromLabel? {
      MetadataTwice(b);
    } else {
      InvertTwiceStructured(b);
    }
  }

  lemma {:induction false} InvertTwiceStructured(b: Body)
    requires !SwapsPaths(b) && !(b.ToAnnotation? || b.ToLabel? || b.FromAnnotation? || b.FromLabel?)
    requires InvertBody(b).Success?
    ensures InvertBody(InvertBody(b).value) == Success(b) <==> Canonical(b)
    decreases b, 0
  {
    match b
    case FieldsToMap(hs, _, kn, _) =>
      if kn.Some? {
        KeyNamesKept(hs, kn.value);
      }
    case MapToFields(_, ss, kn, _) =>
      if kn.Some? {
        KeyNamesKept(ss, kn.value);
      }
    case EnumRemap(_, m, _, _) =>
      SwapPairsTwice(m);
    case ForEach(_, _, rules) =>
      InvertAllTwice(rules);
    case MapKeyRename(_, _, renames) =>
      ReverseTwice(renames);
    case _ =>
  }

  lemma {:induction false} InvertAllTwice(rules: seq<Rule>)
    requires InvertFrom(rules, 0).Success?
    ensures InvertFrom(InvertFrom(rules, 0).value, 0) == Success(rules)
            <==> forall r :: r in rules ==> Canonical(r.body)
    decreases rules, 1
  {
    var once := InvertFrom(rules, 0).value;
    var twice := InvertFrom(once, 0);
    forall k | 0 <= k < |rules|
      ensures InvertRule(once[k]) == Success(rules[k]) <==> Canonical(rules[k].body)
    {
      assert InvertRule(rules[k]) == Success(once[k]);
      InvertTwice(rules[k].body);
    }
    if forall r :: r in rules ==> Canonical(r.body) {
      forall k | 0 <= k < |rules| ensures InvertRule(once[k]) == Success(rules[k]) {
        assert rules[k] in rules;
      }
      assert twice.Success?;
      assert twice.value == rules;
    } else {
      var r :| r in rules && !Canonical(r.body);
      var k :| 0 <= k < |rules| && rules[k] == r;
      assert InvertRule(once[k]) != Success(rules[k]);
      if twice.Success? {
        assert InvertRule(once[k]) == Success(twice.value[k]);
        assert twice.value[k] != rules[k];
      }
    }
  }
}
