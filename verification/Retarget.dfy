/** internal/cli/retarget.go: the merge patch that moves objects to another hub, its
    no-op test, and the canary that bounds a run. */
module Retarget {
  import opened Wrappers
  import opened Json

  type Path = seq<string>

  // ---- JSON merge patch, section 2 of RFC 7396 ----

  function Fields(v: Json): map<string, Json> {
    if v.Obj? then v.fields else map[]
  }

  function MergePatch(target: Json, patch: Json): Json
    decreases patch
  {
    if !patch.Obj? then patch
    else
      var fields := Fields(target);
      Obj(map k | k in fields.Keys + patch.fields.Keys && !(k in patch.fields && patch.fields[k].Null?) ::
        if k in patch.fields then MergePatch(Get(fields, k), patch.fields[k]) else fields[k])
  }

  lemma MergedField(target: Json, patch: Json, k: string)
    requires patch.Obj?
    ensures var merged := MergePatch(target, patch);
      && merged.Obj?
      && (k in merged.fields <==> if k in patch.fields then !patch.fields[k].Null? else k in Fields(target))
      && (k in merged.fields ==>
            merged.fields[k] == if k in patch.fields then MergePatch(Get(Fields(target), k), patch.fields[k]) else Fields(target)[k])
  {
  }

  // ---- Reading nested fields ----

  /** The value at a path of map keys; nothing as soon as a key is missing or a value on
      the way is not a map. */
  function Nested(v: Json, path: Path): Option<Json>
    decreases |path|
  {
    if path == [] then Some(v)
    else if v.Obj? && path[0] in v.fields then Nested(v.fields[path[0]], path[1..])
    else None
  }

  lemma {:induction false} NestedAppend(v: Json, p: Path, q: Path)
    ensures Nested(v, p + q) == if Nested(v, p).None? then None else Nested(Nested(v, p).value, q)
    decreases |p|
  {
    if p == [] {
      assert p + q == q;
    } else {
      assert (p + q)[1..] == p[1..] + q;
      if v.Obj? && p[0] in v.fields {
        NestedAppend(v.fields[p[0]], p[1..], q);
      }
    }
  }

  predicate NestedMapFound(v: Json, path: Path) {
    Nested(v, path).Some? && Nested(v, path).value.Obj?
  }

  predicate AllStrings(fields: map<string, Json>) {
    forall k :: k in fields ==> fields[k].Str?
  }

  // ---- The patch ----

  datatype Scope = LegacyCluster | Cluster | Namespaced

  datatype Role = Composite | Claim

  function MachineryPrefix(scope: Scope, role: Role): (prefix: Path)
    ensures prefix != []
  {
    if role.Claim? || scope.LegacyCluster? then ["spec"] else ["spec", "crossplane"]
  }

  const REF := "compositionRef"
  const REVISION_REF := "compositionRevisionRef"
  const SELECTOR := "compositionSelector"
  const MATCH_LABELS := "matchLabels"

  function Machinery(labelKey: string, to: string): Json {
    Obj(map[REF := Null, REVISION_REF := Null, SELECTOR := Obj(map[MATCH_LABELS := Obj(map[labelKey := Str(to)])])])
  }

  function Wrap(prefix: Path, inner: Json): Json {
    if prefix == [] then inner else Obj(map[prefix[0] := Wrap(prefix[1..], inner)])
  }

  method RetargetPatch(prefix: Path, labelKey: string, to: string) returns (patch: Json)
    requires prefix != []
    ensures patch == Wrap(prefix, Machinery(labelKey, to))
  {
    var out := Machinery(labelKey, to);
    var i := |prefix| - 1;
    while i >= 1
      invariant 0 <= i < |prefix|
      invariant out == Wrap(prefix[i + 1..], Machinery(labelKey, to))
    {
      assert prefix[i..][1..] == prefix[i + 1..];
      out := Obj(map[prefix[i] := out]);
      i := i - 1;
    }
    patch := Obj(map[prefix[0] := out]);
  }

  /** No ref is a map, and the label map is there, all strings, with the wanted label. */
  predicate IsNoOp(obj: Json, prefix: Path, labelKey: string, to: string) {
    && !NestedMapFound(obj, prefix + [REF])
    && !NestedMapFound(obj, prefix + [REVISION_REF])
    && NestedMapFound(obj, prefix + [SELECTOR, MATCH_LABELS])
    && var labels := Nested(obj, prefix + [SELECTOR, MATCH_LABELS]).value.fields;
       AllStrings(labels) && (if labelKey in labels then labels[labelKey].s else "") == to
  }

  // ---- The same reads at the machinery itself ----

  function Labels(m: Json): Option<map<string, Json>> {
    if NestedMapFound(m, [SELECTOR, MATCH_LABELS]) then Some(Nested(m, [SELECTOR, MATCH_LABELS]).value.fields) else None
  }

  predicate Has(m: Json, k: string) {
    m.Obj? && k in m.fields
  }

  predicate HasMap(m: Json, k: string) {
    Has(m, k) && m.fields[k].Obj?
  }

  predicate Labelled(m: Json, labelKey: string, to: string) {
    Labels(m).Some? && labelKey in Labels(m).value && Labels(m).value[labelKey] == Str(to)
  }

  predicate OtherLabelsAreStrings(m: Json, labelKey: string) {
    Labels(m).Some? ==> forall k :: k in Labels(m).value && k != labelKey ==> Labels(m).value[k].Str?
  }

  lemma NestedOne(m: Json, k: string)
    ensures Nested(m, [k]) == if Has(m, k) then Some(m.fields[k]) else None
  {
  }

  /** The no-op test in terms of the machinery object. */
  lemma NoOpMeans(obj: Json, prefix: Path, labelKey: string, to: string)
    requires to != ""
    ensures IsNoOp(obj, prefix, labelKey, to) <==>
      Nested(obj, prefix).Some? &&
      var m := Nested(obj, prefix).value;
      !HasMap(m, REF) && !HasMap(m, REVISION_REF) && Labelled(m, labelKey, to) && OtherLabelsAreStrings(m, labelKey)
  {
    NestedAppend(obj, prefix, [REF]);
    NestedAppend(obj, prefix, [REVISION_REF]);
    NestedAppend(obj, prefix, [SELECTOR, MATCH_LABELS]);
    if Nested(obj, prefix).Some? {
      var m := Nested(obj, prefix).value;
      NestedOne(m, REF);
      NestedOne(m, REVISION_REF);
    }
  }

  // ---- When the patch changes nothing ----

  lemma {:induction false} WrapFixed(obj: Json, prefix: Path, p: Json)
    requires p.Obj?
    ensures MergePatch(obj, Wrap(prefix, p)) == obj <==>
      Nested(obj, prefix).Some? && MergePatch(Nested(obj, prefix).value, p) == Nested(obj, prefix).value
    decreases |prefix|
  {
    if prefix == [] {
    } else {
      var k, rest := prefix[0], prefix[1..];
      var patch := Wrap(prefix, p);
      var merged := MergePatch(obj, patch);
      MergedField(obj, patch, k);
      WrapIsObject(rest, p);
      if Has(obj, k) {
        WrapFixed(obj.fields[k], rest, p);
        forall j | j != k ensures (j in merged.fields <==> j in obj.fields) && (j in obj.fields ==> merged.fields[j] == obj.fields[j]) {
          MergedField(obj, patch, j);
        }
        if MergePatch(obj.fields[k], Wrap(rest, p)) == obj.fields[k] {
          assert merged.fields == obj.fields;
        }
      }
    }
  }

  lemma WrapIsObject(prefix: Path, p: Json)
    requires p.Obj?
    ensures Wrap(prefix, p).Obj?
  {
  }

  lemma DistinctKeys()
    ensures REF != REVISION_REF && REF != SELECTOR && REVISION_REF != SELECTOR
  {
    assert REF[11] == 'R' && REVISION_REF[11] == 'R' && SELECTOR[11] == 'S' && |REF| != |REVISION_REF|;
  }

  lemma MachineryFixed(m: Json, labelKey: string, to: string)
    ensures MergePatch(m, Machinery(labelKey, to)) == m <==>
      m.Obj? && !Has(m, REF) && !Has(m, REVISION_REF) && Labelled(m, labelKey, to)
  {
    FixedParts(m, labelKey, to);
    TwoSteps(m);
    if Has(m, SELECTOR) {
      SelectorFixed(m.fields[SELECTOR], labelKey, to);
    }
  }

  lemma FixedParts(m: Json, labelKey: string, to: string)
    ensures MergePatch(m, Machinery(labelKey, to)) == m <==>
      && !Has(m, REF) && !Has(m, REVISION_REF) && Has(m, SELECTOR)
      && MergePatch(m.fields[SELECTOR], SelectorPatch(labelKey, to)) == m.fields[SELECTOR]
  {
    var p := Machinery(labelKey, to);
    var merged := MergePatch(m, p);
    DistinctKeys();
    MergedField(m, p, REF);
    MergedField(m, p, REVISION_REF);
    MergedField(m, p, SELECTOR);
    assert p.fields[SELECTOR] == SelectorPatch(labelKey, to);
    if !Has(m, REF) && !Has(m, REVISION_REF) && Has(m, SELECTOR)
       && MergePatch(m.fields[SELECTOR], SelectorPatch(labelKey, to)) == m.fields[SELECTOR]
    {
      forall j ensures (j in merged.fields <==> j in m.fields) && (j in m.fields ==> merged.fields[j] == m.fields[j]) {
        MergedField(m, p, j);
      }
      assert merged.fields == m.fields;
    }
  }

  function SelectorPatch(labelKey: string, to: string): Json {
    Obj(map[MATCH_LABELS := Obj(map[labelKey := Str(to)])])
  }

  lemma SelectorFixed(s: Json, labelKey: string, to: string)
    ensures MergePatch(s, SelectorPatch(labelKey, to)) == s <==>
      HasMap(s, MATCH_LABELS) && labelKey in s.fields[MATCH_LABELS].fields && s.fields[MATCH_LABELS].fields[labelKey] == Str(to)
  {
    assert SelectorPatch(labelKey, to) == Wrap([MATCH_LABELS], Obj(map[labelKey := Str(to)]));
    WrapFixed(s, [MATCH_LABELS], Obj(map[labelKey := Str(to)]));
    NestedOne(s, MATCH_LABELS);
    if Has(s, MATCH_LABELS) {
      LabelFixed(s.fields[MATCH_LABELS], labelKey, to);
    }
  }

  lemma LabelFixed(l: Json, labelKey: string, to: string)
    ensures MergePatch(l, Obj(map[labelKey := Str(to)])) == l <==> Has(l, labelKey) && l.fields[labelKey] == Str(to)
  {
    var p := Obj(map[labelKey := Str(to)]);
    var merged := MergePatch(l, p);
    MergedField(l, p, labelKey);
    if Has(l, labelKey) && l.fields[labelKey] == Str(to) {
      assert merged.fields == l.fields;
    }
  }

  /** A ref that is there without being a map: the test does not see it, the patch
      removes it. */
  predicate StrayRef(m: Json) {
    (Has(m, REF) && !HasMap(m, REF)) || (Has(m, REVISION_REF) && !HasMap(m, REVISION_REF))
  }

  /** Exactly when the no-op test is right: it holds if and only if applying the patch
      would leave the object unchanged, except for a labelled object with a ref that is
      not a map, and for an up-to-date object with another label that is not a string. */
  lemma NoOpExactly(obj: Json, prefix: Path, labelKey: string, to: string)
    requires to != ""
    ensures (IsNoOp(obj, prefix, labelKey, to) <==> MergePatch(obj, Wrap(prefix, Machinery(labelKey, to))) == obj) <==>
      (Nested(obj, prefix).Some? && Labelled(Nested(obj, prefix).value, labelKey, to) ==>
         var m := Nested(obj, prefix).value;
         if OtherLabelsAreStrings(m, labelKey) then HasMap(m, REF) || HasMap(m, REVISION_REF) || !StrayRef(m)
         else Has(m, REF) || Has(m, REVISION_REF))
  {
    NoOpMeans(obj, prefix, labelKey, to);
    WrapFixed(obj, prefix, Machinery(labelKey, to));
    if Nested(obj, prefix).Some? {
      MachineryFixed(Nested(obj, prefix).value, labelKey, to);
    }
  }

  /** What Crossplane's own schema admits: refs are maps, labels are strings. */
  predicate WellTyped(obj: Json, prefix: Path) {
    Nested(obj, prefix).Some? ==>
      var m := Nested(obj, prefix).value;
      !StrayRef(m) && (Labels(m).Some? ==> AllStrings(Labels(m).value))
  }

  lemma NoOpOnWellTyped(obj: Json, prefix: Path, labelKey: string, to: string)
    requires to != "" && WellTyped(obj, prefix)
    ensures IsNoOp(obj, prefix, labelKey, to) <==> MergePatch(obj, Wrap(prefix, Machinery(labelKey, to))) == obj
  {
    NoOpExactly(obj, prefix, labelKey, to);
  }

  // ---- After one application ----

  lemma {:induction false} WrapNested(obj: Json, prefix: Path, p: Json)
    requires p.Obj?
    ensures Nested(MergePatch(obj, Wrap(prefix, p)), prefix) ==
      Some(MergePatch(if Nested(obj, prefix).Some? then Nested(obj, prefix).value else Null, p))
    decreases |prefix|
  {
    if prefix == [] {
    } else {
      var k, rest := prefix[0], prefix[1..];
      WrapIsObject(rest, p);
      MergedField(obj, Wrap(prefix, p), k);
      WrapNested(Get(Fields(obj), k), rest, p);
      if !Has(obj, k) {
        NestedOfNull(rest, p);
      }
    }
  }

  lemma NestedOfNull(path: Path, p: Json)
    requires p.Obj?
    ensures MergePatch(if Nested(Null, path).Some? then Nested(Null, path).value else Null, p) == MergePatch(Null, p)
  {
  }

  lemma MachineryApplied(m: Json, labelKey: string, to: string)
    ensures var after := MergePatch(m, Machinery(labelKey, to));
      && after.Obj? && !Has(after, REF) && !Has(after, REVISION_REF)
      && Labelled(after, labelKey, to)
      && Labels(after).Some?
      && (forall k :: k != labelKey ==>
            (k in Labels(after).value <==> Labels(m).Some? && k in Labels(m).value) &&
            (k in Labels(after).value ==> Labels(after).value[k] == Labels(m).value[k]))
  {
    var p := Machinery(labelKey, to);
    DistinctKeys();
    MergedField(m, p, REF);
    MergedField(m, p, REVISION_REF);
    MergedField(m, p, SELECTOR);
    var s := Get(Fields(m), SELECTOR);
    var q := Obj(map[labelKey := Str(to)]);
    MergedField(s, SelectorPatch(labelKey, to), MATCH_LABELS);
    var l := Get(Fields(s), MATCH_LABELS);
    var after := MergePatch(m, p);
    assert after.fields[SELECTOR] == MergePatch(s, SelectorPatch(labelKey, to));
    assert after.fields[SELECTOR].fields[MATCH_LABELS] == MergePatch(l, q);
    TwoSteps(after);
    TwoSteps(m);
    forall k ensures k in MergePatch(l, q).fields <==> k == labelKey || k in Fields(l) {
      MergedField(l, q, k);
    }
    forall k | k in MergePatch(l, q).fields
      ensures MergePatch(l, q).fields[k] == if k == labelKey then Str(to) else Fields(l)[k]
    {
      MergedField(l, q, k);
    }
  }

  lemma TwoSteps(m: Json)
    ensures Labels(m) ==
      if HasMap(m, SELECTOR) && HasMap(m.fields[SELECTOR], MATCH_LABELS) then Some(m.fields[SELECTOR].fields[MATCH_LABELS].fields) else None
  {
    NestedAppend(m, [SELECTOR], [MATCH_LABELS]);
    assert [SELECTOR] + [MATCH_LABELS] == [SELECTOR, MATCH_LABELS];
    NestedOne(m, SELECTOR);
    if Has(m, SELECTOR) {
      NestedOne(m.fields[SELECTOR], MATCH_LABELS);
    }
  }

  /** One application makes a further one change nothing, and makes the no-op test hold
      exactly when the labels it leaves alone are all strings. */
  lemma AppliedOnce(obj: Json, prefix: Path, labelKey: string, to: string)
    requires to != ""
    ensures var patch := Wrap(prefix, Machinery(labelKey, to)); var after := MergePatch(obj, patch);
      && MergePatch(after, patch) == after
      && (IsNoOp(after, prefix, labelKey, to) <==>
            Nested(obj, prefix).None? || OtherLabelsAreStrings(Nested(obj, prefix).value, labelKey))
  {
    var p := Machinery(labelKey, to);
    var after := MergePatch(obj, Wrap(prefix, p));
    var m := if Nested(obj, prefix).Some? then Nested(obj, prefix).value else Null;
    WrapNested(obj, prefix, p);
    MachineryApplied(m, labelKey, to);
    MachineryFixed(MergePatch(m, p), labelKey, to);
    WrapFixed(after, prefix, p);
    NoOpMeans(after, prefix, labelKey, to);
  }

  /** An ill-typed object: the test calls it done while a null ref is still there. */
  lemma NullRefIsMissed()
    ensures var obj := Obj(map["spec" := Obj(map[REF := Null, SELECTOR := Obj(map[MATCH_LABELS := Obj(map["v" := Str("v2")])])])]);
      IsNoOp(obj, ["spec"], "v", "v2") && MergePatch(obj, Wrap(["spec"], Machinery("v", "v2"))) != obj
  {
    var labels := Obj(map["v" := Str("v2")]);
    var m := Obj(map[REF := Null, SELECTOR := Obj(map[MATCH_LABELS := labels])]);
    var obj := Obj(map["spec" := m]);
    DistinctKeys();
    NestedOne(obj, "spec");
    TwoSteps(m);
    NoOpMeans(obj, ["spec"], "v", "v2");
    WrapFixed(obj, ["spec"], Machinery("v", "v2"));
    MachineryFixed(m, "v", "v2");
  }

  // ---- Nothing else is touched ----

  /** The path leaves the patch at some key the patch does not mention. */
  predicate Leaves(patch: Json, q: Path)
    decreases |q|
  {
    patch.Obj? && q != [] && (q[0] !in patch.fields || Leaves(patch.fields[q[0]], q[1..]))
  }

  lemma {:induction false} MergeKeepsElsewhere(target: Json, patch: Json, q: Path)
    requires Leaves(patch, q)
    ensures Nested(MergePatch(target, patch), q) == Nested(target, q)
    decreases |q|
  {
    MergedField(target, patch, q[0]);
    if q[0] in patch.fields {
      var sub := Get(Fields(target), q[0]);
      MergeKeepsElsewhere(sub, patch.fields[q[0]], q[1..]);
      if !Has(target, q[0]) {
        NothingInNull(q[1..], patch.fields[q[0]]);
      }
    }
  }

  lemma NothingInNull(q: Path, patch: Json)
    requires Leaves(patch, q)
    ensures Nested(Null, q) == None
  {
  }

  predicate Comparable(p: Path, q: Path) {
    p <= q || q <= p
  }

  lemma {:induction false} WrapLeaves(prefix: Path, p: Json, q: Path)
    requires !Comparable(prefix, q) || (prefix <= q && Leaves(p, q[|prefix|..]))
    ensures Leaves(Wrap(prefix, p), q)
    decreases |prefix|
  {
    if prefix != [] {
      if q[0] == prefix[0] {
        assert prefix[1..] <= q[1..] ==> prefix <= q by {
          assert prefix == [prefix[0]] + prefix[1..] && q == [q[0]] + q[1..];
        }
        assert q[1..] <= prefix[1..] ==> q <= prefix by {
          assert prefix == [prefix[0]] + prefix[1..] && q == [q[0]] + q[1..];
        }
        if prefix <= q {
          assert q[1..][|prefix| - 1..] == q[|prefix|..];
        }
        WrapLeaves(prefix[1..], p, q[1..]);
      }
    } else {
      assert q[0..] == q;
    }
  }

  lemma MachineryLeaves(labelKey: string, to: string, r: Path)
    requires !Comparable([REF], r) && !Comparable([REVISION_REF], r) && !Comparable([SELECTOR, MATCH_LABELS, labelKey], r)
    ensures Leaves(Machinery(labelKey, to), r)
  {
    var p := Machinery(labelKey, to);
    assert r != [];
    assert r[0] != REF && r[0] != REVISION_REF by {
      assert r[0] == REF ==> [REF] <= r;
      assert r[0] == REVISION_REF ==> [REVISION_REF] <= r;
    }
    if r[0] == SELECTOR {
      var s := r[1..];
      assert p.fields[SELECTOR] == SelectorPatch(labelKey, to);
      assert s != [];
      if s[0] == MATCH_LABELS {
        var l := s[1..];
        assert l != [];
        assert l[0] == labelKey ==> [SELECTOR, MATCH_LABELS, labelKey] <= r;
        assert Leaves(Obj(map[labelKey := Str(to)]), l);
      }
      assert Leaves(SelectorPatch(labelKey, to), s);
    }
  }

  /** Whatever the object: every path that is not on the way to, at or below the two refs
      and the one label reads the same after the patch. */
  lemma TouchesNothingElse(obj: Json, prefix: Path, labelKey: string, to: string, q: Path)
    requires !Comparable(prefix + [REF], q) && !Comparable(prefix + [REVISION_REF], q)
    requires !Comparable(prefix + [SELECTOR, MATCH_LABELS, labelKey], q)
    ensures Nested(MergePatch(obj, Wrap(prefix, Machinery(labelKey, to))), q) == Nested(obj, q)
  {
    var p := Machinery(labelKey, to);
    if prefix <= q {
      var r := q[|prefix|..];
      assert q == prefix + r;
      Cancel(prefix, [REF], r);
      Cancel(prefix, [REVISION_REF], r);
      Cancel(prefix, [SELECTOR, MATCH_LABELS, labelKey], r);
      MachineryLeaves(labelKey, to, r);
    } else {
      assert q <= prefix ==> q <= prefix + [REF];
    }
    WrapLeaves(prefix, p, q);
    MergeKeepsElsewhere(obj, Wrap(prefix, p), q);
  }

  lemma Cancel(p: Path, a: Path, b: Path)
    ensures Comparable(p + a, p + b) <==> Comparable(a, b)
  {
    assert (p + a)[|p|..] == a && (p + b)[|p|..] == b;
    if p + a <= p + b {
      assert a == (p + b)[..|p + a|][|p|..] == b[..|a|];
    }
    if p + b <= p + a {
      assert b == (p + a)[..|p + b|][|p|..] == a[..|b|];
    }
  }

  // ---- Canary runs ----

  /** The parsed flag: absent, a percentage, a count, or not a number at all. */
  datatype Canary = All | Percent(pct: int) | Count(n: int) | Malformed

  function ApplyCanary(total: nat, canary: Canary): (r: Option<nat>)
    ensures r.Some? ==> r.value <= total
    ensures r.None? <==> canary.Malformed? || (canary.Percent? && !(0 <= canary.pct <= 100)) || (canary.Count? && canary.n < 0)
  {
    match canary
    case All => Some(total)
    case Malformed => None
    case Percent(pct) =>
      if pct < 0 || pct > 100 then None
      else
        PercentBound(total, pct);
        var n := total * pct / 100;
        Some(if n == 0 && pct > 0 && total > 0 then 1 else n)
    case Count(n) => if n < 0 then None else Some(if n > total then total else n)
  }

  lemma PercentBound(total: nat, pct: int)
    requires 0 <= pct <= 100
    ensures 0 <= total * pct / 100 <= total
  {
    assert 0 <= total * pct <= total * 100 by {
      Mono(total, pct, 100);
    }
  }

  lemma Mono(total: nat, a: nat, b: nat)
    requires a <= b
    ensures total * a <= total * b
  {
  }

  /** A non-zero percentage of something selects something, 100% selects all, and a
      larger one selects at least as many: as selection is a prefix of the listing, it
      contains the smaller one. */
  lemma CanaryGrows(items: seq<Json>, a: int, b: int)
    requires 0 <= a <= b <= 100
    ensures ApplyCanary(|items|, Percent(a)).value <= ApplyCanary(|items|, Percent(b)).value
    ensures items[..ApplyCanary(|items|, Percent(a)).value] <= items[..ApplyCanary(|items|, Percent(b)).value]
    ensures a > 0 && items != [] ==> ApplyCanary(|items|, Percent(a)).value > 0
    ensures ApplyCanary(|items|, Percent(100)).value == |items|
  {
    Mono(|items|, a, b);
    PercentBound(|items|, a);
    PercentBound(|items|, b);
    assert |items| * a / 100 <= |items| * b / 100;
  }

  /** The same for counts of any size. */
  lemma CountGrows(items: seq<Json>, a: nat, b: nat)
    requires a <= b
    ensures items[..ApplyCanary(|items|, Count(a)).value] <= items[..ApplyCanary(|items|, Count(b)).value]
    ensures a > 0 && items != [] ==> ApplyCanary(|items|, Count(a)).value > 0
    ensures a >= |items| ==> ApplyCanary(|items|, Count(a)).value == |items|
  {
  }

  // ---- A whole run ----

  /** misplaced: a namespaced object without a namespace; rejected: the API refuses the
      patch. */
  datatype Item = Item(obj: Json, role: Role, misplaced: bool, rejected: bool)

  datatype Outcome = Failed | Skipped | Patched

  function OutcomeOf(it: Item, scope: Scope, labelKey: string, to: string): Outcome {
    if it.misplaced then Failed
    else if IsNoOp(it.obj, MachineryPrefix(scope, it.role), labelKey, to) then Skipped
    else if it.rejected then Failed
    else Patched
  }

  function AfterOne(it: Item, scope: Scope, labelKey: string, to: string, dryRun: bool): Item {
    if OutcomeOf(it, scope, labelKey, to).Patched? && !dryRun
    then it.(obj := MergePatch(it.obj, Wrap(MachineryPrefix(scope, it.role), Machinery(labelKey, to)))) else it
  }

  /** A selected object that did not fail is retargeted, so a re-run skips it and changes
      nothing: canaries of growing size do each object once. */
  lemma RerunSkips(it: Item, scope: Scope, labelKey: string, to: string)
    requires to != "" && WellTyped(it.obj, MachineryPrefix(scope, it.role))
    ensures var after := AfterOne(it, scope, labelKey, to, false);
      !OutcomeOf(it, scope, labelKey, to).Failed? ==>
        OutcomeOf(after, scope, labelKey, to) == Skipped && AfterOne(after, scope, labelKey, to, false) == after
  {
    AppliedOnce(it.obj, MachineryPrefix(scope, it.role), labelKey, to);
  }
}
