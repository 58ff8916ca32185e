/** What a rule means: the pair of operations the engine compiles it to, one per
    direction (api/v1alpha1/xrdconversionconfig_convert.go, pkg/engine/compile.go).
    An operation is what runs on an object, so equal operations convert every
    object alike. */
module Engine {
  import opened Wrappers
  import opened Rules
  import opened Invert

  datatype Kind = KString | KInteger | KNumber | KBoolean | KArray | KObject | KUnknown

  /** A leaf of a version's schema; items describes the elements of an array. A wholesale
      leaf is handled as one unit; construct names the combinator that made it so. */
  datatype Leaf = Leaf(kind: Kind, wholesale: bool, construct: string, itemKind: Kind, items: Schema)

  datatype Schema = Schema(leaves: map<Path, Leaf>)

  function KindAt(s: Schema, p: Path): Kind {
    if p in s.leaves then s.leaves[p].kind else KUnknown
  }

  function ItemKindAt(s: Schema, p: Path): Kind {
    if p in s.leaves then s.leaves[p].itemKind else KUnknown
  }

  function ItemsAt(s: Schema, p: Path): Schema {
    if p in s.leaves then s.leaves[p].items else Schema(map[])
  }

  /** What an operation that reads one field and writes one field does to the value. */
  datatype ValueOp =
    | Copy
    | Wrap(key: string, defaults: map<string, Raw>)
    | Unwrap(key: string)
    | FirstElement
    | Singleton
    | KeyArray(keyField: string)
    | ListMap(keyField: string)
    | Scale(ratio: real, round: bool)
    | Join(separator: string)
    | Split(separator: string, itemKind: Kind)
    | ParseQuantity
    | FormatQuantity
    | ParseDuration
    | FormatDuration
    | RenameKeys(renames: map<string, string>)
    | Coerce(toKind: Kind, onFractional: string)
    | Remap(table: seq<(Raw, Raw)>, onUnmapped: string)

  datatype Op =
    | Move(src: Path, dst: Path, fn: ValueOp)
    | Collapse(fields: seq<Path>, mapPath: Path, keyNames: map<string, string>)
    | Expand(mapPath: Path, fields: seq<Path>, keyNames: map<string, string>, onUnknown: string)
    | Stash(path: Path, store: string, metaKey: string, serialization: string)
    | Restore(path: Path, store: string, metaKey: string, serialization: string)
    | Strip(store: string, metaKey: string)
    | Inject(path: Path, value: Raw)
    | Drop
    | Patch(ops: seq<PatchOp>)
    | Each(srcItems: Path, dstItems: Path, nested: seq<Op>)
    | SplitFields(source: Path, pattern: string, dests: map<string, Path>, kinds: map<string, Kind>)
    | JoinFields(sources: map<string, Path>, dest: Path, template: string)
    | Eval(expr: string, results: seq<Path>)
    | Guarded(path: Path, equals: Raw, inner: Op)
    | NoOp

  /** A compiled rule: hub to spoke, and spoke to hub. */
  datatype Plan = Plan(down: Op, up: Op)

  function Turn(p: Plan): Plan {
    Plan(p.up, p.down)
  }

  function OrDefault(v: string, d: string): string {
    if v == "" then d else v
  }

  /** keyNames is only ever looked up at the listed paths. */
  function KeyNamesFor(paths: seq<Path>, keyNames: Option<map<string, string>>): map<string, string> {
    match keyNames
    case None => map[]
    case Some(m) => map p | p in m && p in paths :: m[p]
  }

  function TableDown(m: seq<EnumPair>): seq<(Raw, Raw)> {
    seq(|m|, i requires 0 <= i < |m| => (m[i].hub, m[i].spoke))
  }

  function TableUp(m: seq<EnumPair>): seq<(Raw, Raw)> {
    seq(|m|, i requires 0 <= i < |m| => (m[i].spoke, m[i].hub))
  }

  function KindsOf(s: Schema, fields: map<string, Path>): map<string, Kind> {
    map k | k in fields :: KindAt(s, fields[k])
  }

  /** Quantity and Duration infer the string side from the schemas; any other
      combination of kinds is an error and compiles to nothing. */
  function StringInteger(hub: Path, spoke: Path, hubKind: Kind, spokeKind: Kind, parse: ValueOp, format: ValueOp): Plan {
    if hubKind == KString && spokeKind == KInteger then Plan(Move(hub, spoke, parse), Move(spoke, hub, format))
    else if hubKind == KInteger && spokeKind == KString then Plan(Move(hub, spoke, format), Move(spoke, hub, parse))
    else Plan(NoOp, NoOp)
  }

  /** hubValue == spokeValue * factor, rounded on an integer-typed destination.
      A zero factor is an error and compiles to nothing. */
  function ScalePlan(hub: Path, spoke: Path, factor: real, hubKind: Kind, spokeKind: Kind): Plan {
    if factor == 0.0 then Plan(NoOp, NoOp)
    else Plan(Move(hub, spoke, Scale(1.0 / factor, spokeKind == KInteger)),
              Move(spoke, hub, Scale(factor, hubKind == KInteger)))
  }

  function CompileBody(b: Body, hub: Schema, spoke: Schema): (p: Plan)
    ensures !p.down.Guarded? && !p.up.Guarded?
    decreases b, 0
  {
    match b
    case FieldRename(h, s) => Plan(Move(h, s, Copy), Move(s, h, Copy))
    case ScalarToObject(h, s, k, d) => Plan(Move(h, s, Wrap(k, d)), Move(s, h, Unwrap(k)))
    case ObjectToScalar(h, s, k, d) => Plan(Move(h, s, Unwrap(k)), Move(s, h, Wrap(k, d)))
    case SingletonArrayToObject(h, s) => Plan(Move(h, s, FirstElement), Move(s, h, Singleton))
    case ObjectToSingletonArray(h, s) => Plan(Move(h, s, Singleton), Move(s, h, FirstElement))
    case FieldsToMap(hs, s, kn, pol) =>
      Plan(Collapse(hs, s, KeyNamesFor(hs, kn)), Expand(s, hs, KeyNamesFor(hs, kn), OrDefault(pol, "Error")))
    case MapToFields(h, ss, kn, pol) =>
      Plan(Expand(h, ss, KeyNamesFor(ss, kn), OrDefault(pol, "Error")), Collapse(ss, h, KeyNamesFor(ss, kn)))
    case ToAnnotation(h, k, ser, rev) => StashPlan(h, "annotations", k, OrDefault(ser, "JSON"), rev)
    case ToLabel(h, k, ser, rev) => StashPlan(h, "labels", k, OrDefault(ser, "JSON"), rev)
    case FromAnnotation(s, k, ser, rev) => RestorePlan(s, "annotations", k, OrDefault(ser, "JSON"), rev)
    case FromLabel(s, k, ser, rev) => RestorePlan(s, "labels", k, OrDefault(ser, "String"), rev)
    case EnumRemap(p, m, onHub, onSpoke) =>
      Plan(Move(p, p, Remap(TableDown(m), OrDefault(onHub, "Error"))),
           Move(p, p, Remap(TableUp(m), OrDefault(onSpoke, "Error"))))
    case DefaultValue(p, side, v) => if side == OnSpoke then Plan(Inject(p, v), Drop) else Plan(Drop, Inject(p, v))
    case Constant(p, side, v) => if side == OnSpoke then Plan(Inject(p, v), Drop) else Plan(Drop, Inject(p, v))
    case Delete(_, _) => Plan(Drop, Drop)
    case JSONPatch(down, up, _) => Plan(Patch(down), Patch(up))
    case ForEach(h, s, rules) =>
      var plans := CompileAll(rules, ItemsAt(hub, h), ItemsAt(spoke, s), 0);
      Plan(Each(h, s, Downs(plans)), Each(s, h, Ups(plans)))
    case TypeCoerce(p, frac) =>
      Plan(Move(p, p, Coerce(KindAt(spoke, p), OrDefault(frac, "Error"))),
           Move(p, p, Coerce(KindAt(hub, p), OrDefault(frac, "Error"))))
    case ScalarToFields(h, fields, pat, tmpl, _) =>
      Plan(SplitFields(h, pat, fields, KindsOf(spoke, fields)), JoinFields(fields, h, tmpl))
    case FieldsToScalar(fields, s, pat, tmpl, _) =>
      Plan(JoinFields(fields, s, tmpl), SplitFields(s, pat, fields, KindsOf(hub, fields)))
    case ArrayToMapByKey(h, s, k) => Plan(Move(h, s, KeyArray(k)), Move(s, h, ListMap(k)))
    case MapToArrayByKey(h, s, k) => Plan(Move(h, s, ListMap(k)), Move(s, h, KeyArray(k)))
    case NumericScale(h, s, factor) => ScalePlan(h, s, factor, KindAt(hub, h), KindAt(spoke, s))
    case ListJoin(h, s, sep) => Plan(Move(h, s, Join(sep)), Move(s, h, Split(sep, ItemKindAt(hub, h))))
    case ListSplit(h, s, sep) => Plan(Move(h, s, Split(sep, ItemKindAt(spoke, s))), Move(s, h, Join(sep)))
    case Quantity(h, s) => StringInteger(h, s, KindAt(hub, h), KindAt(spoke, s), ParseQuantity, FormatQuantity)
    case Duration(h, s) => StringInteger(h, s, KindAt(hub, h), KindAt(spoke, s), ParseDuration, FormatDuration)
    case MapKeyRename(h, s, renames) =>
      Plan(Move(h, s, RenameKeys(renames)), Move(s, h, RenameKeys(ReverseRenames(renames))))
    case CEL(hs, ss, down, up) => Plan(Eval(down, ss), Eval(up, hs))
    case BranchMap(_, _) => Plan(NoOp, NoOp)
    case Missing(_) => Plan(NoOp, NoOp)
  }

  /** A field kept in metadata while the spoke has no place for it. Without
      restoreOnReverse the way back only strips the key. */
  function StashPlan(p: Path, store: string, key: string, ser: string, reversible: bool): Plan {
    Plan(Stash(p, store, key, ser), if reversible then Restore(p, store, key, ser) else Strip(store, key))
  }

  function RestorePlan(p: Path, store: string, key: string, ser: string, reversible: bool): Plan {
    Plan(Restore(p, store, key, ser), if reversible then Stash(p, store, key, ser) else Strip(store, key))
  }

  /** A guard is evaluated on whichever object is being converted. */
  function Guard(w: Option<When>, op: Op): Op {
    if w.None? || op.NoOp? then op else Guarded(w.value.path, w.value.equals, op)
  }

  function CompileRule(r: Rule, hub: Schema, spoke: Schema): Plan
    decreases r
  {
    var p := CompileBody(r.body, hub, spoke);
    Plan(Guard(r.when, p.down), Guard(r.when, p.up))
  }

  function CompileAll(rules: seq<Rule>, hub: Schema, spoke: Schema, i: nat): (plans: seq<Plan>)
    requires i <= |rules|
    ensures |plans| == |rules| - i
    ensures forall k :: i <= k < |rules| ==> plans[k - i] == CompileRule(rules[k], hub, spoke)
    decreases rules, |rules| - i
  {
    if i == |rules| then []
    else [CompileRule(rules[i], hub, spoke)] + CompileAll(rules, hub, spoke, i + 1)
  }

  function Downs(plans: seq<Plan>): (ops: seq<Op>)
    ensures |ops| == |plans|
  {
    seq(|plans|, i requires 0 <= i < |plans| => plans[i].down)
  }

  function Ups(plans: seq<Plan>): (ops: seq<Op>)
    ensures |ops| == |plans|
  {
    seq(|plans|, i requires 0 <= i < |plans| => plans[i].up)
  }

  // ---- InvertRule against the compiled meaning ----

  /** The rules whose inversion swaps the two compiled directions. What is left out:
      a scale whose factor is not its own reciprocal, a stash that is not restored on
      the way back, a label whose unset serialization is read as JSON on one side and
      String on the other, and key renames that are not injective. */
  ghost predicate Reversible(b: Body)
    decreases b, 0
  {
    match b
    case ToAnnotation(_, _, _, rev) => rev
    case FromAnnotation(_, _, _, rev) => rev
    case ToLabel(_, _, ser, rev) => rev && ser != ""
    case FromLabel(_, _, ser, rev) => rev && ser != ""
    case NumericScale(_, _, factor) => factor == 0.0 || factor * factor == 1.0
    case MapKeyRename(_, _, renames) => InjectiveMap(renames)
    case ForEach(_, _, rules) => forall r :: r in rules ==> Reversible(r.body)
    case _ => true
  }

  ghost predicate Swapped(b: Body, hub: Schema, spoke: Schema)
    requires InvertBody(b).Success?
  {
    CompileBody(InvertBody(b).value, spoke, hub) == Turn(CompileBody(b, hub, spoke))
  }

  lemma ScaleSwaps(h: Path, s: Path, factor: real, hk: Kind, sk: Kind)
    ensures ScalePlan(s, h, factor, sk, hk) == Turn(ScalePlan(h, s, factor, hk, sk))
            <==> factor == 0.0 || factor * factor == 1.0
  {
    if factor != 0.0 {
      Reciprocal(factor, 1.0 / factor);
    }
  }

  lemma Reciprocal(factor: real, r: real)
    requires r * factor == 1.0
    ensures r == factor <==> factor * factor == 1.0
  {
    if factor * factor == 1.0 {
      assert (r - factor) * factor == r * factor - factor * factor;
      assert ((r - factor) * factor) * factor == 0.0;
      assert ((r - factor) * factor) * factor == (r - factor) * (factor * factor);
    }
  }

  lemma KeyNamesSwap(paths: seq<Path>, keyNames: Option<map<string, string>>)
    ensures KeyNamesFor(paths, InvertKeyNames(paths, keyNames)) == KeyNamesFor(paths, keyNames)
  {
  }

  lemma TablesSwap(m: seq<EnumPair>)
    ensures TableDown(SwapPairs(m)) == TableUp(m) && TableUp(SwapPairs(m)) == TableDown(m)
  {
  }

  lemma PathsSwap(b: Body, hub: Schema, spoke: Schema)
    requires SwapsPaths(b) && !b.NumericScale?
    ensures InvertBody(b).Success? && Swapped(b, hub, spoke)
  {
    hide InvertBody, CompileBody;
    if b.CEL? || b.ScalarToFields? || b.FieldsToScalar? {
      ManyFieldsSwap(b, hub, spoke);
    } else if b.ListJoin? || b.ListSplit? || b.Quantity? || b.Duration? {
      ValuesSwap(b, hub, spoke);
    } else {
      ShapesSwap(b, hub, spoke);
    }
  }

  lemma ValuesSwap(b: Body, hub: Schema, spoke: Schema)
    requires b.ListJoin? || b.ListSplit? || b.Quantity? || b.Duration?
    ensures InvertBody(b).Success? && Swapped(b, hub, spoke)
  {
    hide InvertFrom, InvertKeyNames, ReverseRenames, SwapPairs, FlipSide, CompileAll, ItemsAt, KindsOf;
  }

  lemma ManyFieldsSwap(b: Body, hub: Schema, spoke: Schema)
    requires b.CEL? || b.ScalarToFields? || b.FieldsToScalar?
    ensures InvertBody(b).Success? && Swapped(b, hub, spoke)
  {
    hide InvertFrom, InvertKeyNames, ReverseRenames, SwapPairs, FlipSide, CompileAll, ItemsAt, KindsOf;
  }

  lemma ShapesSwap(b: Body, hub: Schema, spoke: Schema)
    requires b.FieldRename? || b.ScalarToObject? || b.ObjectToScalar? || b.SingletonArrayToObject? ||
             b.ObjectToSingletonArray? || b.ArrayToMapByKey? || b.MapToArrayByKey?
    ensures InvertBody(b).Success? && Swapped(b, hub, spoke)
  {
    hide InvertFrom, InvertKeyNames, ReverseRenames, SwapPairs, FlipSide, CompileAll, ItemsAt;
  }

  lemma MetadataSwaps(b: Body, hub: Schema, spoke: Schema)
    requires b.ToAnnotation? || b.ToLabel? || b.FromAnnotation? || b.FromLabel?
    requires InvertBody(b).Success?
    ensures Swapped(b, hub, spoke) <==> Reversible(b)
  {
  }

  /** Inverting a rule exchanges exactly its two compiled directions, at any ForEach
      nesting and for any schemas, precisely when the rule is reversible. */
  lemma {:induction false} InvertSwapsDirections(b: Body, hub: Schema, spoke: Schema)
    requires InvertBody(b).Success?
    ensures Swapped(b, hub, spoke) <==> Reversible(b)
    decreases b, 1
  {
    if b.NumericScale? {
      ScaleSwaps(b.hub, b.spoke, b.factor, KindAt(hub, b.hub), KindAt(spoke, b.spoke));
    } else if SwapsPaths(b) {
      PathsSwap(b, hub, spoke);
    } else if b.ToAnnotation? || b.ToLabel? || b.FromAnnotation? || b.FromLabel? {
      MetadataSwaps(b, hub, spoke);
    } else {
      StructuredSwaps(b, hub, spoke);
    }
  }

  lemma {:induction false} StructuredSwaps(b: Body, hub: Schema, spoke: Schema)
    requires !SwapsPaths(b) && !(b.ToAnnotation? || b.ToLabel? || b.FromAnnotation? || b.FromLabel?)
    requires InvertBody(b).Success?
    ensures Swapped(b, hub, spoke) <==> Reversible(b)
    decreases b, 0
  {
    if b.ForEach? {
      AllSwap(b.rules, ItemsAt(hub, b.hubItems), ItemsAt(spoke, b.spokeItems));
    } else if b.MapKeyRename? {
      ReverseTwice(b.renames);
    } else {
      FlatSwaps(b, hub, spoke);
    }
  }

  lemma FlatSwaps(b: Body, hub: Schema, spoke: Schema)
    requires !SwapsPaths(b) && !(b.ToAnnotation? || b.ToLabel? || b.FromAnnotation? || b.FromLabel?)
    requires InvertBody(b).Success? && !b.ForEach? && !b.MapKeyRename?
    ensures Swapped(b, hub, spoke) && Reversible(b)
  {
    hide StashPlan, RestorePlan, KindsOf, CompileAll, ItemsAt, InvertFrom, ReverseRenames;
    match b
    case FieldsToMap(hs, _, kn, _) => KeyNamesSwap(hs, kn);
    case MapToFields(_, ss, kn, _) => KeyNamesSwap(ss, kn);
    case EnumRemap(_, m, _, _) => TablesSwap(m);
    case _ =>
  }

  lemma {:induction false} AllSwap(rules: seq<Rule>, hub: Schema, spoke: Schema)
    requires InvertFrom(rules, 0).Success?
    ensures var there := CompileAll(rules, hub, spoke, 0);
            var back := CompileAll(InvertFrom(rules, 0).value, spoke, hub, 0);
            (Downs(back) == Ups(there) && Ups(back) == Downs(there))
            <==> forall r :: r in rules ==> Reversible(r.body)
    decreases rules, 0
  {
    var inv := InvertFrom(rules, 0).value;
    var there := CompileAll(rules, hub, spoke, 0);
    var back := CompileAll(inv, spoke, hub, 0);
    forall k | 0 <= k < |rules|
      ensures (back[k].down == there[k].up && back[k].up == there[k].down) <==> Reversible(rules[k].body)
    {
      assert InvertRule(rules[k]) == Success(inv[k]);
      InvertSwapsDirections(rules[k].body, hub, spoke);
      GuardSwaps(rules[k], inv[k], hub, spoke);
    }
    if forall r :: r in rules ==> Reversible(r.body) {
      forall k | 0 <= k < |rules| ensures Downs(back)[k] == Ups(there)[k] && Ups(back)[k] == Downs(there)[k] {
        assert rules[k] in rules;
      }
    } else {
      var r :| r in rules && !Reversible(r.body);
      var k :| 0 <= k < |rules| && rules[k] == r;
      assert Downs(back)[k] != Ups(there)[k] || Ups(back)[k] != Downs(there)[k];
    }
  }

  /** A guard reads the same path on both sides, so it does not disturb the swap. */
  lemma GuardSwaps(r: Rule, inv: Rule, hub: Schema, spoke: Schema)
    requires InvertRule(r) == Success(inv)
    ensures CompileRule(inv, spoke, hub) == Turn(CompileRule(r, hub, spoke)) <==> Swapped(r.body, hub, spoke)
  {
    GuardTurns(r.when, CompileBody(r.body, hub, spoke), CompileBody(inv.body, spoke, hub));
  }

  lemma GuardTurns(w: Option<When>, p: Plan, q: Plan)
    requires !p.down.Guarded? && !p.up.Guarded? && !q.down.Guarded? && !q.up.Guarded?
    ensures Plan(Guard(w, q.down), Guard(w, q.up)) == Turn(Plan(Guard(w, p.down), Guard(w, p.up))) <==> q == Turn(p)
  {
    GuardInjective(w, q.down, p.up);
    GuardInjective(w, q.up, p.down);
  }

  lemma GuardInjective(w: Option<When>, a: Op, b: Op)
    requires !a.Guarded? && !b.Guarded?
    ensures Guard(w, a) == Guard(w, b) <==> a == b
  {
  }

  /** The same at the level of whole rules, guards included. */
  lemma InvertedRuleMeaning(r: Rule, hub: Schema, spoke: Schema)
    requires InvertRule(r).Success?
    ensures CompileRule(InvertRule(r).value, spoke, hub) == Turn(CompileRule(r, hub, spoke)) <==> Reversible(r.body)
  {
    GuardSwaps(r, InvertRule(r).value, hub, spoke);
    InvertSwapsDirections(r.body, hub, spoke);
  }

  /** hub = 1024 * spoke: the spoke-to-hub half multiplies by 1024, yet the inverted
      rule divides by it when it should repeat that half. */
  lemma ScaleInversionFails(hub: Schema, spoke: Schema)
    ensures var r := Rule(NumericScale("spec.mb", "spec.gb", 1024.0), true, "", None);
            && InvertRule(r).Success?
            && CompileRule(r, hub, spoke).up.fn.ratio == 1024.0
            && CompileRule(InvertRule(r).value, spoke, hub).down.fn.ratio == 1.0 / 1024.0
  {
  }

  /** A stash that is never restored inverts to a rule that restores it. */
  lemma StashInversionFails(hub: Schema, spoke: Schema)
    ensures var r := Rule(ToAnnotation("spec.note", "x/note", "JSON", false), true, "", None);
            && InvertRule(r).Success?
            && CompileRule(r, hub, spoke).up == Strip("annotations", "x/note")
            && CompileRule(InvertRule(r).value, spoke, hub).down == Restore("spec.note", "annotations", "x/note", "JSON")
  {
  }
}
