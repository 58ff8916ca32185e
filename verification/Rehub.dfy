/** api/v1alpha1/rehub.go: promoting a spoke to be the hub of a conversion config. */
module Rehub {
  import opened Wrappers
  import opened Ordering
  import opened Rules
  import opened Invert
  import opened HubPaths

  type LeafSets = map<string, set<Path>>

  datatype RehubError =
    | ToRequired
    | AlreadyHub
    | HubAmongSpokes(version: string)
    | NotASpoke(version: string)
    | InvertFailed(inner: RuleError)
    | PathMapFailed(inner: RuleError)
    | ComposeFailed(version: string, inner: RuleError)

  function RewriteFrom(rules: seq<Rule>, m: PathMap, i: nat): (out: Result<seq<Rule>, RuleError>)
    requires i <= |rules|
    ensures out.Success? ==> |out.value| == |rules| - i
    ensures out.Success? ==> forall k :: i <= k < |rules| ==> RewriteHubPaths(rules[k], m) == Success(out.value[k - i])
    decreases |rules| - i
  {
    if i == |rules| then Success([])
    else
      match RewriteHubPaths(rules[i], m)
      case Failure(e) => Failure(InRule(i, e))
      case Success(rw) => Prepend([rw], RewriteFrom(rules, m, i + 1))
  }

  function ClaimedBy(rules: seq<Rule>): set<Path> {
    set r, p | r in rules && p in SpokePathsOf(r.body) :: p
  }

  /** The renames that keep a field converting once the promotion has remapped the
      hub path it used to share. */
  function Lift(keys: seq<Path>, m: PathMap, leaves: set<Path>, claimed: set<Path>): seq<Rule>
    requires forall k :: k in keys ==> k in m
    decreases |keys|
  {
    if keys == [] then []
    else
      var k := keys[0];
      if m[k] == k || k !in leaves || k in claimed then Lift(keys[1..], m, leaves, claimed)
      else [PlainRename(m[k], k)] + Lift(keys[1..], m, leaves, claimed + {k})
  }

  function Compose(rules: seq<Rule>, m: PathMap, leaves: set<Path>): Result<seq<Rule>, RuleError> {
    match RewriteFrom(rules, m, 0)
    case Failure(e) => Failure(e)
    case Success(rw) => Success(rw + Lift(SortedKeys(m.Keys), m, leaves, ClaimedBy(rw)))
  }

  method ComposeSpokeRules(rules: seq<Rule>, m: PathMap, leaves: set<Path>) returns (out: Result<seq<Rule>, RuleError>)
    ensures out == Compose(rules, m, leaves)
  {
    var composed: seq<Rule> := [];
    var claimed: set<Path> := {};
    PrependNothing(RewriteFrom(rules, m, 0));
    for i := 0 to |rules|
      invariant claimed == ClaimedBy(composed)
      invariant RewriteFrom(rules, m, 0) == Prepend(composed, RewriteFrom(rules, m, i))
    {
      match RewriteHubPaths(rules[i], m)
      case Failure(e) =>
        return Failure(InRule(i, e));
      case Success(rw) =>
        ClaimedByAppend(composed, rw);
        PrependMore(composed, rw, RewriteFrom(rules, m, i + 1));
        composed := composed + [rw];
        claimed := claimed + SpokePathsOf(rw.body);
    }
    PrependEnd(composed, RewriteFrom(rules, m, |rules|));
    var lifted := LiftAutoCovered(m, leaves, claimed);
    return Success(composed + lifted);
  }

  lemma ClaimedByAppend(rules: seq<Rule>, r: Rule)
    ensures ClaimedBy(rules + [r]) == ClaimedBy(rules) + SpokePathsOf(r.body)
  {
    assert forall q :: q in rules + [r] <==> q in rules || q == r;
  }

  /** One round of the loop: the key at j is lifted or passed over. */
  lemma LiftStep(keys: seq<Path>, j: nat, m: PathMap, leaves: set<Path>, claimed: set<Path>)
    requires j < |keys| && forall k :: k in keys[j..] ==> k in m
    ensures keys[j] in m && forall k :: k in keys[j + 1..] ==> k in m
    ensures Lift(keys[j..], m, leaves, claimed) ==
      if m[keys[j]] == keys[j] || keys[j] !in leaves || keys[j] in claimed then Lift(keys[j + 1..], m, leaves, claimed)
      else [PlainRename(m[keys[j]], keys[j])] + Lift(keys[j + 1..], m, leaves, claimed + {keys[j]})
  {
    assert keys[j..][0] == keys[j] && keys[j..][1..] == keys[j + 1..];
    assert keys[j] in keys[j..];
    assert forall k :: k in keys[j + 1..] ==> k in keys[j..];
  }

  method LiftAutoCovered(m: PathMap, leaves: set<Path>, alreadyClaimed: set<Path>) returns (lifted: seq<Rule>)
    ensures lifted == Lift(SortedKeys(m.Keys), m, leaves, alreadyClaimed)
  {
    var claimed := alreadyClaimed;
    var keys := SortedKeys(m.Keys);
    lifted := [];
    ghost var whole := Lift(keys, m, leaves, claimed);
    for j := 0 to |keys|
      invariant forall k :: k in keys[j..] ==> k in m
      invariant whole == lifted + Lift(keys[j..], m, leaves, claimed)
    {
      var oldHub := keys[j];
      LiftStep(keys, j, m, leaves, claimed);
      if m[oldHub] != oldHub && oldHub in leaves && oldHub !in claimed {
        lifted := lifted + [PlainRename(m[oldHub], oldHub)];
        claimed := claimed + {oldHub};
      }
    }
  }

  /** The promoted spoke: the last one carrying the version. */
  function Promoted(spokes: seq<SpokeRules>, version: string): (p: Option<SpokeRules>)
    ensures p.Some? ==> p.value in spokes && p.value.version == version
    ensures p.None? ==> forall s :: s in spokes ==> s.version != version
    decreases |spokes|
  {
    if spokes == [] then None
    else
      var last := spokes[|spokes| - 1];
      if last.version == version then Some(last)
      else Promoted(spokes[..|spokes| - 1], version)
  }

  function Others(spokes: seq<SpokeRules>, version: string): (o: seq<SpokeRules>)
    ensures forall s :: s in o <==> s in spokes && s.version != version
    decreases |spokes|
  {
    if spokes == [] then []
    else
      var last := spokes[|spokes| - 1];
      var init := Others(spokes[..|spokes| - 1], version);
      assert spokes == spokes[..|spokes| - 1] + [last];
      if last.version == version then init else init + [last]
  }

  function LeavesOf(leaves: LeafSets, version: string): set<Path> {
    if version in leaves then leaves[version] else {}
  }

  function ComposeFrom(others: seq<SpokeRules>, m: PathMap, leaves: LeafSets, i: nat): (out: Result<seq<SpokeRules>, RehubError>)
    requires i <= |others|
    ensures out.Success? ==> |out.value| == |others| - i
    ensures out.Success? ==>
              forall k :: i <= k < |others| ==>
                && Compose(others[k].rules, m, LeavesOf(leaves, others[k].version)) == Success(out.value[k - i].rules)
                && out.value[k - i].version == others[k].version
    decreases |others| - i
  {
    if i == |others| then Success([])
    else
      match Compose(others[i].rules, m, LeavesOf(leaves, others[i].version))
      case Failure(e) => Failure(ComposeFailed(others[i].version, e))
      case Success(rules) => Prepend([SpokeRules(others[i].version, rules)], ComposeFrom(others, m, leaves, i + 1))
  }

  predicate HasVersion(spokes: seq<SpokeRules>, version: string) {
    exists s :: s in spokes && s.version == version
  }

  function Rehubbed(oldHub: string, newHub: string, spokes: seq<SpokeRules>, leaves: LeafSets): Result<(string, seq<SpokeRules>), RehubError> {
    if newHub == "" then Failure(ToRequired)
    else if newHub == oldHub then Failure(AlreadyHub)
    else if HasVersion(spokes, oldHub) then Failure(HubAmongSpokes(oldHub))
    else
      match Promoted(spokes, newHub)
      case None => Failure(NotASpoke(newHub))
      case Some(promote) =>
        match InvertFrom(promote.rules, 0)
        case Failure(e) => Failure(InvertFailed(e))
        case Success(inverted) =>
          match PathMapFrom(promote.rules, 0, map[])
          case Failure(e) => Failure(PathMapFailed(e))
          case Success(m) =>
            match ComposeFrom(Others(spokes, newHub), m, leaves, 0)
            case Failure(e) => Failure(e)
            case Success(rest) => Success((newHub, [SpokeRules(oldHub, inverted)] + rest))
  }

  /** Picks out the promoted spoke and keeps the rest in order. */
  method SplitSpokes(oldHub: string, newHub: string, spokes: seq<SpokeRules>)
    returns (clash: bool, promote: Option<SpokeRules>, others: seq<SpokeRules>)
    requires newHub != oldHub
    ensures clash == HasVersion(spokes, oldHub)
    ensures !clash ==> promote == Promoted(spokes, newHub) && others == Others(spokes, newHub)
  {
    promote, others := None, [];
    for i := 0 to |spokes|
      invariant promote == Promoted(spokes[..i], newHub)
      invariant others == Others(spokes[..i], newHub)
      invariant !HasVersion(spokes[..i], oldHub)
    {
      assert spokes[..i + 1][..i] == spokes[..i];
      assert spokes[..i + 1] == spokes[..i] + [spokes[i]];
      var s := spokes[i];
      if s.version == newHub {
        promote := Some(s);
      } else {
        if s.version == oldHub {
          assert s in spokes;
          return true, promote, others;
        }
        others := others + [s];
      }
    }
    assert spokes[..|spokes|] == spokes;
    clash := false;
  }

  method ComposeOthers(others: seq<SpokeRules>, m: PathMap, leaves: LeafSets) returns (out: Result<seq<SpokeRules>, RehubError>)
    ensures out == ComposeFrom(others, m, leaves, 0)
  {
    var composed: seq<SpokeRules> := [];
    PrependNothing(ComposeFrom(others, m, leaves, 0));
    for i := 0 to |others|
      invariant ComposeFrom(others, m, leaves, 0) == Prepend(composed, ComposeFrom(others, m, leaves, i))
    {
      var rules := ComposeSpokeRules(others[i].rules, m, LeavesOf(leaves, others[i].version));
      if rules.Failure? {
        return Failure(ComposeFailed(others[i].version, rules.error));
      }
      var s := SpokeRules(others[i].version, rules.value);
      PrependMore(composed, s, ComposeFrom(others, m, leaves, i + 1));
      composed := composed + [s];
    }
    PrependEnd(composed, ComposeFrom(others, m, leaves, |others|));
    return Success(composed);
  }

  method RehubSpokes(oldHub: string, newHub: string, spokes: seq<SpokeRules>, leaves: LeafSets)
    returns (out: Result<(string, seq<SpokeRules>), RehubError>)
    ensures out == Rehubbed(oldHub, newHub, spokes, leaves)
  {
    if newHub == "" {
      return Failure(ToRequired);
    }
    if newHub == oldHub {
      return Failure(AlreadyHub);
    }
    var clash, promote, others := SplitSpokes(oldHub, newHub, spokes);
    if clash {
      return Failure(HubAmongSpokes(oldHub));
    }
    if promote.None? {
      return Failure(NotASpoke(newHub));
    }
    var inverted := InvertRules(promote.value.rules);
    if inverted.Failure? {
      return Failure(InvertFailed(inverted.error));
    }
    var pathMap := PathMapFromPromoteRules(promote.value.rules);
    if pathMap.Failure? {
      return Failure(PathMapFailed(pathMap.error));
    }
    var composed := ComposeOthers(others, pathMap.value, leaves);
    if composed.Failure? {
      return Failure(composed.error);
    }
    return Success((newHub, [SpokeRules(oldHub, inverted.value)] + composed.value));
  }
}
