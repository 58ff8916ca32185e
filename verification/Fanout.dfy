/** internal/controller/cws_fanout.go: which configs a server event enqueues, and why
    the narrow fan-out is enough. Configs of both kinds are mapped by the same code. */
module Fanout {
  import opened Wrappers
  import opened Ordering
  import opened Assign

  // ---- The server list as it looks with one view put in ----

  function SeenBeside(s: Server, view: Server): Server {
    if s.name == view.name then view
    else if view.isDefault then s.(isDefault := false)
    else s
  }

  function WithView(live: seq<Server>, view: Server): (out: seq<Server>)
    ensures |out| == |live| && forall i :: 0 <= i < |live| ==> out[i] == SeenBeside(live[i], view)
  {
    seq(|live|, i requires 0 <= i < |live| => SeenBeside(live[i], view))
  }

  function ServersWithView(live: seq<Server>, view: Server): seq<Server> {
    if view.name in Names(live) then WithView(live, view) else WithView(live, view) + [view]
  }

  method PutView(live: seq<Server>, view: Server) returns (out: seq<Server>)
    ensures out == ServersWithView(live, view)
  {
    out := [];
    var found := false;
    for i := 0 to |live|
      invariant out == WithView(live[..i], view)
      invariant found <==> view.name in Names(live)[..i]
    {
      assert Names(live)[..i + 1] == Names(live)[..i] + [live[i].name];
      if live[i].name == view.name {
        out := out + [view];
        found := true;
      } else {
        var cp := live[i];
        if view.isDefault {
          cp := cp.(isDefault := false);
        }
        out := out + [cp];
      }
    }
    assert live[..|live|] == live && Names(live)[..|live|] == Names(live);
    if !found {
      out := out + [view];
    }
  }

  /** The view is in, every other server is still there, and a default view is the only
      default: the list is again one that Kubernetes could return. */
  lemma ViewListing(live: seq<Server>, view: Server)
    requires Listing(live) && view.name != ""
    ensures Listing(ServersWithView(live, view)) && view in ServersWithView(live, view)
  {
    var out := ServersWithView(live, view);
    ViewIsIn(live, view);
    forall s | s in out ensures s.name != "" {
      var i :| 0 <= i < |out| && out[i] == s;
      assert i < |live| ==> live[i] in live;
    }
    forall i, j | 0 <= i < j < |out| ensures out[i].name != out[j].name {
      if j == |live| {
        assert Names(live)[i] in Names(live);
      }
    }
  }

  lemma ViewOthers(live: seq<Server>, view: Server, s: Server) returns (t: Server)
    requires s in ServersWithView(live, view) && s != view
    ensures t in live && t.name != view.name && s == SeenBeside(t, view)
  {
    var out := ServersWithView(live, view);
    var i :| 0 <= i < |out| && out[i] == s;
    t := live[i];
  }

  lemma ViewIsIn(live: seq<Server>, view: Server)
    ensures view in ServersWithView(live, view)
  {
    var out := ServersWithView(live, view);
    if view.name in Names(live) {
      var i :| 0 <= i < |live| && Names(live)[i] == view.name;
      assert out[i] == view;
    } else {
      assert out[|live|] == view;
    }
  }

  // ---- The requests of one event ----

  ghost function ViewNames(h: Hash, configs: seq<Config>, servers: seq<Server>, server: string, view: Option<Server>): set<string> {
    if view.None? then {} else NamesOf(Assigned(h, configs, ServersWithView(servers, view.value), server))
  }

  ghost function Enqueued(h: Hash, configs: seq<Config>, servers: seq<Server>, server: string, views: seq<Option<Server>>): set<string>
    decreases |views|
  {
    if views == [] then {}
    else
      Enqueued(h, configs, servers, server, views[..|views| - 1]) +
      ViewNames(h, configs, servers, server, views[|views| - 1])
  }

  /** Some config of this name is assigned to the server once the view is put in. */
  ghost predicate AssignedUnder(h: Hash, configs: seq<Config>, servers: seq<Server>, server: string, view: Option<Server>, n: string) {
    view.Some? && exists c :: c in configs && c.name == n && IsAssignedTo(h, c, ServersWithView(servers, view.value), server)
  }

  lemma ViewNamesExactly(h: Hash, configs: seq<Config>, servers: seq<Server>, server: string, view: Option<Server>, n: string)
    ensures n in ViewNames(h, configs, servers, server, view) <==> AssignedUnder(h, configs, servers, server, view, n)
  {
  }

  lemma {:induction false} AssignedIsEnqueued(h: Hash, configs: seq<Config>, servers: seq<Server>, server: string, views: seq<Option<Server>>, k: nat, n: string)
    requires k < |views| && AssignedUnder(h, configs, servers, server, views[k], n)
    ensures n in Enqueued(h, configs, servers, server, views)
    decreases |views|
  {
    hide AssignedUnder, ViewNames;
    if k < |views| - 1 {
      AssignedIsEnqueued(h, configs, servers, server, views[..|views| - 1], k, n);
    } else {
      ViewNamesExactly(h, configs, servers, server, views[k], n);
    }
  }

  lemma {:induction false} EnqueuedIsAssigned(h: Hash, configs: seq<Config>, servers: seq<Server>, server: string, views: seq<Option<Server>>, n: string) returns (k: nat)
    requires n in Enqueued(h, configs, servers, server, views)
    ensures k < |views| && AssignedUnder(h, configs, servers, server, views[k], n)
    decreases |views|
  {
    k := |views| - 1;
    if n in ViewNames(h, configs, servers, server, views[k]) {
      ViewNamesExactly(h, configs, servers, server, views[k], n);
    } else {
      k := EnqueuedIsAssigned(h, configs, servers, server, views[..|views| - 1], n);
    }
  }

  /** A name is requested exactly when such a config is assigned under some view. */
  lemma EnqueuedExactly(h: Hash, configs: seq<Config>, servers: seq<Server>, server: string, views: seq<Option<Server>>, n: string)
    ensures n in Enqueued(h, configs, servers, server, views) <==>
      exists k :: 0 <= k < |views| && AssignedUnder(h, configs, servers, server, views[k], n)
  {
    if n in Enqueued(h, configs, servers, server, views) {
      var k := EnqueuedIsAssigned(h, configs, servers, server, views, n);
    } else if exists k :: 0 <= k < |views| && AssignedUnder(h, configs, servers, server, views[k], n) {
      var k :| 0 <= k < |views| && AssignedUnder(h, configs, servers, server, views[k], n);
      AssignedIsEnqueued(h, configs, servers, server, views, k, n);
    }
  }

  /** One request per config assigned under some view, ascending by name. */
  method MapConfigsForServerViews(h: Hash, configs: seq<Config>, servers: seq<Server>, server: string, views: seq<Option<Server>>)
    returns (reqs: seq<string>)
    ensures reqs == SortedKeys(Enqueued(h, configs, servers, server, views))
  {
    hide Assigned, ServersWithView, NamesOf, Collected;
    var seen: set<string> := {};
    reqs := [];
    NothingCollected();
    for i := 0 to |views|
      invariant Collected(reqs, seen)
      invariant seen == Enqueued(h, configs, servers, server, views[..i])
    {
      assert views[..i + 1][..i] == views[..i];
      if views[i].Some? {
        var with := PutView(servers, views[i].value);
        var out := ConfigsAssignedTo(h, configs, with, server);
        seen, reqs := CollectNew(out, seen, reqs);
      }
    }
    assert views[..|views|] == views;
    SortCollected(reqs, seen);
    reqs := SortBy(Itself, reqs);
  }

  lemma NothingCollected()
    ensures Collected([], {})
  {
  }

  lemma SortCollected(reqs: seq<string>, seen: set<string>)
    requires Collected(reqs, seen)
    ensures SortBy(Itself, reqs) == SortedKeys(seen)
  {
    SortDistinctStrings(reqs, seen);
  }

  method CollectNew(out: seq<Config>, seenBefore: set<string>, reqsBefore: seq<string>)
    returns (seen: set<string>, reqs: seq<string>)
    requires Collected(reqsBefore, seenBefore)
    ensures Collected(reqs, seen) && seen == seenBefore + NamesOf(out)
  {
    seen, reqs := seenBefore, reqsBefore;
    for j := 0 to |out|
      invariant Collected(reqs, seen)
      invariant seen == seenBefore + NamesOf(out[..j])
    {
      assert out[..j + 1] == out[..j] + [out[j]];
      NamesOfAppend(out[..j], out[j]);
      if out[j].name !in seen {
        seen := seen + {out[j].name};
        reqs := reqs + [out[j].name];
      }
    }
    assert out[..|out|] == out;
  }

  ghost predicate Collected(reqs: seq<string>, seen: set<string>) {
    && (forall i, j :: 0 <= i < j < |reqs| ==> reqs[i] != reqs[j])
    && (forall k :: k in reqs <==> k in seen)
  }

  ghost function NamesOf(configs: seq<Config>): set<string> {
    set c | c in configs :: c.name
  }

  lemma NamesOfAppend(configs: seq<Config>, c: Config)
    ensures NamesOf(configs + [c]) == NamesOf(configs) + {c.name}
  {
    assert c in configs + [c];
    assert forall d :: d in configs + [c] <==> d in configs || d == c;
    assert forall n :: n in NamesOf(configs + [c]) <==> n in NamesOf(configs) + {c.name};
  }

  // ---- Server events ----

  datatype Event = Created(s: Server) | Deleted(s: Server) | Updated(was: Server, now: Server)

  function EventName(e: Event): string {
    if e.Updated? then e.now.name else e.s.name
  }

  function EventViews(e: Event): seq<Option<Server>> {
    if e.Updated? then [Some(e.was), Some(e.now)] else [Some(e.s)]
  }

  /** e is what the watch reports for one server that differs between the two lists. */
  ghost predicate Reports(before: seq<Server>, after: seq<Server>, e: Event) {
    match e
    case Created(s) => s in after && !Exists(before, s.name)
    case Deleted(s) => s in before && !Exists(after, s.name)
    case Updated(was, now) => was in before && now in after && was.name == now.name && was != now
  }

  ghost predicate EnqueuedBy(h: Hash, configs: seq<Config>, servers: seq<Server>, e: Event, name: string) {
    name in Enqueued(h, configs, servers, EventName(e), EventViews(e))
  }

  /** The config answers to this view of one server once the view is put into the list. */
  ghost predicate Claims(h: Hash, cfg: Config, servers: seq<Server>, view: Server) {
    Resolve(h, cfg, ServersWithView(servers, view)) == Success(view.name)
  }

  /** A pool exists and none of its members has a finite score for the key. */
  ghost predicate StuckPool(h: Hash, servers: seq<Server>, key: string) {
    ShardPool(servers) != [] && Stuck(h, ShardPool(servers), key)
  }

  /** The one situation the fan-out does not see: a stuck pool appears or disappears. */
  ghost predicate Blind(h: Hash, cfg: Config, before: seq<Server>, after: seq<Server>) {
    && !Pinned(cfg)
    && ((StuckPool(h, before, cfg.shardKey) && ShardPool(after) == [])
        || (StuckPool(h, after, cfg.shardKey) && ShardPool(before) == []))
  }

  // ---- Completeness ----

  lemma PinnedClaim(h: Hash, cfg: Config, servers: seq<Server>, view: Server)
    requires Listing(servers) && Pinned(cfg) && cfg.ref.value == view.name
    ensures Claims(h, cfg, servers, view)
  {
    ViewIsIn(servers, view);
    NamesHold(ServersWithView(servers, view), view.name);
  }

  ghost predicate OutranksPool(h: Hash, key: string, view: Server, servers: seq<Server>) {
    forall t :: t in servers && ShardingEnabled(t) && t.name != view.name ==> Outranks(h, key, view, t)
  }

  lemma ViewOutranks(h: Hash, key: string, servers: seq<Server>, view: Server, s: Server)
    requires OutranksPool(h, key, view, servers)
    requires s in ServersWithView(servers, view) && ShardingEnabled(s) && s != view
    ensures Outranks(h, key, view, s)
  {
    var t := ViewOthers(servers, view, s);
    assert ShardingEnabled(t) && ShardWeight(s) == ShardWeight(t);
    assert ShardScore(h, s, key) == ShardScore(h, t, key);
  }

  /** A sharding view that outranks the other pool members takes the key. */
  lemma PoolClaim(h: Hash, cfg: Config, servers: seq<Server>, view: Server)
    requires Listing(servers) && !Pinned(cfg) && view.name != ""
    requires ShardingEnabled(view) && Scores(h, cfg.shardKey, view)
    requires OutranksPool(h, cfg.shardKey, view, servers)
    ensures Claims(h, cfg, servers, view)
  {
    var out := ServersWithView(servers, view);
    var pool := ShardPool(out);
    ViewListing(servers, view);
    assert view in pool;
    forall s | s in pool && s != view ensures Outranks(h, cfg.shardKey, view, s) {
      ViewOutranks(h, cfg.shardKey, servers, view, s);
    }
    PoolUnique(out);
    WinnerIsPicked(h, pool, cfg.shardKey, view);
  }

  /** With no sharding anywhere, a default view is the only default. */
  lemma DefaultClaim(h: Hash, cfg: Config, servers: seq<Server>, view: Server)
    requires Listing(servers) && !Pinned(cfg) && view.name != ""
    requires view.isDefault && !ShardingEnabled(view)
    requires forall t :: t in servers ==> !ShardingEnabled(t)
    ensures Claims(h, cfg, servers, view)
  {
    var out := ServersWithView(servers, view);
    ViewListing(servers, view);
    forall s | s in out ensures !ShardingEnabled(s) && (s.isDefault ==> s == view) {
      if s != view {
        var t := ViewOthers(servers, view, s);
      }
    }
    NonePooled(out);
    assert DefaultNames(out) == {view.name};
    DefaultsMean(out);
    SingletonNames(DefaultNames(out), view.name);
  }

  ghost predicate SomeViewClaims(h: Hash, cfg: Config, before: seq<Server>, after: seq<Server>) {
    exists view :: (view in before <==> view !in after) && Claims(h, cfg, after, view)
  }

  lemma PinnedComplete(h: Hash, cfg: Config, before: seq<Server>, after: seq<Server>)
    requires Listing(before) && Listing(after) && Pinned(cfg)
    requires Resolve(h, cfg, before) != Resolve(h, cfg, after)
    ensures SomeViewClaims(h, cfg, before, after)
  {
    var n := cfg.ref.value;
    NamesHold(before, n);
    NamesHold(after, n);
    var s: Server :| s.name == n && (s in before || s in after);
    PinnedClaim(h, cfg, after, s);
  }

  lemma PooledOrNot(h: Hash, servers: seq<Server>, key: string)
    requires Listing(servers)
    ensures ShardPool(servers) == [] <==> forall s :: s in servers ==> !ShardingEnabled(s)
    ensures UniqueNames(ShardPool(servers))
    ensures ShardPool(servers) != [] && !StuckPool(h, servers, key) ==>
      exists w :: Wins(h, ShardPool(servers), key, w) && Pick(h, ShardPool(servers), key) == w.name
    ensures StuckPool(h, servers, key) ==> Pick(h, ShardPool(servers), key) == ""
  {
    PoolUnique(servers);
    PickSkipsStuck(h, ShardPool(servers), key);
    if ShardPool(servers) == [] {
      forall s | s in servers ensures !ShardingEnabled(s) {
        assert s !in ShardPool(servers);
      }
    } else {
      assert ShardPool(servers)[0] in ShardPool(servers);
    }
  }

  /** The new pool has a winner: either it changed, or the old winner did and its old
      form still outranks the whole new pool (minimal disruption). */
  lemma NewWinnerComplete(h: Hash, cfg: Config, before: seq<Server>, after: seq<Server>, v: Server)
    requires Listing(before) && Listing(after) && !Pinned(cfg)
    requires Wins(h, ShardPool(after), cfg.shardKey, v)
    requires Resolve(h, cfg, before) != Resolve(h, cfg, after)
    ensures SomeViewClaims(h, cfg, before, after)
  {
    var key := cfg.shardKey;
    PooledOrNot(h, after, key);
    WinnerIsPicked(h, ShardPool(after), key, v);
    if v !in before {
      PoolClaim(h, cfg, after, v);
    } else {
      assert v in ShardPool(before);
      PooledOrNot(h, before, key);
      var w :| Wins(h, ShardPool(before), key, w) && Pick(h, ShardPool(before), key) == w.name;
      assert w.name != v.name;
      MovedKeys(h, ShardPool(before), ShardPool(after), key, w, v);
      assert w !in after;
      forall t | t in after && ShardingEnabled(t) && t.name != w.name ensures Outranks(h, key, w, t) {
        assert t in ShardPool(after);
        if t != v {
          OutranksTransitive(h, key, w, v, t);
        }
      }
      PoolClaim(h, cfg, after, w);
    }
  }

  /** No member of the new list scores: the old winner's old form takes the key. */
  lemma OldWinnerComplete(h: Hash, cfg: Config, before: seq<Server>, after: seq<Server>, w: Server)
    requires Listing(before) && Listing(after) && !Pinned(cfg)
    requires Wins(h, ShardPool(before), cfg.shardKey, w)
    requires Stuck(h, ShardPool(after), cfg.shardKey)
    ensures SomeViewClaims(h, cfg, before, after)
  {
    assert w in before;
    assert w in after ==> w in ShardPool(after);
    forall t | t in after && ShardingEnabled(t) && t.name != w.name ensures Outranks(h, cfg.shardKey, w, t) {
      assert t in ShardPool(after);
    }
    PoolClaim(h, cfg, after, w);
  }

  lemma DefaultsComplete(h: Hash, cfg: Config, before: seq<Server>, after: seq<Server>)
    requires Listing(before) && Listing(after) && !Pinned(cfg)
    requires ShardPool(before) == [] && ShardPool(after) == []
    requires Resolve(h, cfg, before) != Resolve(h, cfg, after)
    ensures SomeViewClaims(h, cfg, before, after)
  {
    PooledOrNot(h, before, cfg.shardKey);
    PooledOrNot(h, after, cfg.shardKey);
    DefaultsMean(before);
    DefaultsMean(after);
    var view := DefaultChanged(before, after);
    DefaultClaim(h, cfg, after, view);
  }

  lemma DefaultChanged(before: seq<Server>, after: seq<Server>) returns (view: Server)
    requires DefaultNames(before) != DefaultNames(after)
    ensures view.isDefault && (view in before <==> view !in after)
  {
    var n :| n in DefaultNames(before) <==> n !in DefaultNames(after);
    if n in DefaultNames(before) {
      view :| view in before && view.isDefault && view.name == n;
    } else {
      view :| view in after && view.isDefault && view.name == n;
    }
  }

  /** However many servers were created, edited and deleted at once: a config whose
      resolution changed, errors included, answers to the old or new view of some
      changed server mapped against the final list. */
  lemma ViewsMissNothing(h: Hash, cfg: Config, before: seq<Server>, after: seq<Server>)
    requires Listing(before) && Listing(after)
    requires !Blind(h, cfg, before, after)
    requires Resolve(h, cfg, before) != Resolve(h, cfg, after)
    ensures SomeViewClaims(h, cfg, before, after)
  {
    var key := cfg.shardKey;
    PooledOrNot(h, before, key);
    PooledOrNot(h, after, key);
    if Pinned(cfg) {
      PinnedComplete(h, cfg, before, after);
    } else if ShardPool(after) != [] && !StuckPool(h, after, key) {
      var v :| Wins(h, ShardPool(after), key, v) && Pick(h, ShardPool(after), key) == v.name;
      NewWinnerComplete(h, cfg, before, after, v);
    } else if ShardPool(before) != [] {
      var w :| Wins(h, ShardPool(before), key, w) && Pick(h, ShardPool(before), key) == w.name;
      OldWinnerComplete(h, cfg, before, after, w);
    } else {
      DefaultsComplete(h, cfg, before, after);
    }
  }

  lemma ClaimingView(h: Hash, cfg: Config, before: seq<Server>, after: seq<Server>) returns (view: Server)
    requires Listing(before) && Listing(after)
    requires !Blind(h, cfg, before, after)
    requires Resolve(h, cfg, before) != Resolve(h, cfg, after)
    ensures (view in before <==> view !in after) && Claims(h, cfg, after, view)
  {
    ViewsMissNothing(h, cfg, before, after);
    view :| (view in before <==> view !in after) && Claims(h, cfg, after, view);
  }

  /** One of the events between two lists, mapped against the live list, enqueues the name. */
  ghost predicate SomeEventEnqueues(h: Hash, configs: seq<Config>, before: seq<Server>, after: seq<Server>, live: seq<Server>, name: string) {
    exists e :: Reports(before, after, e) && EnqueuedBy(h, configs, live, e, name)
  }

  lemma ChangedViewHasEvent(before: seq<Server>, after: seq<Server>, view: Server) returns (e: Event)
    requires Listing(before) && Listing(after)
    requires view in before <==> view !in after
    ensures Reports(before, after, e) && EventName(e) == view.name && Some(view) in EventViews(e)
  {
    if view in after {
      if Exists(before, view.name) {
        var was :| was in before && was.name == view.name;
        e := Updated(was, view);
        assert EventViews(e)[1] == Some(view);
      } else {
        e := Created(view);
        assert EventViews(e)[0] == Some(view);
      }
    } else {
      if Exists(after, view.name) {
        var now :| now in after && now.name == view.name;
        e := Updated(view, now);
        assert EventViews(e)[0] == Some(view);
      } else {
        e := Deleted(view);
        assert EventViews(e)[0] == Some(view);
      }
    }
  }

  lemma ClaimEnqueues(h: Hash, configs: seq<Config>, cfg: Config, servers: seq<Server>, view: Server, e: Event)
    requires cfg in configs && Claims(h, cfg, servers, view)
    requires EventName(e) == view.name && Some(view) in EventViews(e)
    ensures EnqueuedBy(h, configs, servers, e, cfg.name)
  {
    var k :| 0 <= k < |EventViews(e)| && EventViews(e)[k] == Some(view);
    assert IsAssignedTo(h, cfg, ServersWithView(servers, view), EventName(e));
    assert AssignedUnder(h, configs, servers, EventName(e), Some(view), cfg.name);
    AssignedIsEnqueued(h, configs, servers, EventName(e), EventViews(e), k, cfg.name);
  }

  /** The fan-out is complete: every config whose answer changed is in the request list
      of at least one of the reported events. */
  lemma FanoutComplete(h: Hash, configs: seq<Config>, cfg: Config, before: seq<Server>, after: seq<Server>)
    requires Listing(before) && Listing(after) && cfg in configs
    requires !Blind(h, cfg, before, after)
    requires Resolve(h, cfg, before) != Resolve(h, cfg, after)
    ensures SomeEventEnqueues(h, configs, before, after, after, cfg.name)
  {
    var view := ClaimingView(h, cfg, before, after);
    StepEnqueues(h, configs, cfg, before, after, after, view);
  }

  // ---- Whole histories ----

  ghost predicate History(lists: seq<seq<Server>>) {
    forall k :: 0 <= k < |lists| ==> Listing(lists[k])
  }

  lemma HistoryAt(lists: seq<seq<Server>>, k: nat)
    requires History(lists) && k < |lists|
    ensures Listing(lists[k])
  {
  }

  /** The event of step k of a history, mapped against the list the history ends in. */
  ghost predicate SomeStepEnqueues(h: Hash, configs: seq<Config>, lists: seq<seq<Server>>, name: string)
    requires lists != []
  {
    exists k :: 0 <= k < |lists| - 1 &&
      SomeEventEnqueues(h, configs, lists[k], lists[k + 1], lists[|lists| - 1], name)
  }

  lemma {:induction false} ViewChangesAtSomeStep(lists: seq<seq<Server>>, view: Server, k: nat) returns (at: nat)
    requires k < |lists|
    requires view in lists[0] <==> view !in lists[k]
    ensures at < k && (view in lists[at] <==> view !in lists[at + 1])
    decreases k
  {
    if view in lists[k - 1] <==> view !in lists[k] {
      at := k - 1;
    } else {
      at := ViewChangesAtSomeStep(lists, view, k - 1);
    }
  }

  /** Any number of edits, creations and deletions one after the other, their events
      only handled at the end: still nothing is missed. */
  lemma FanoutCompleteOverHistory(h: Hash, configs: seq<Config>, cfg: Config, lists: seq<seq<Server>>)
    requires lists != [] && cfg in configs
    requires History(lists)
    requires !Blind(h, cfg, lists[0], lists[|lists| - 1])
    requires Resolve(h, cfg, lists[0]) != Resolve(h, cfg, lists[|lists| - 1])
    ensures SomeStepEnqueues(h, configs, lists, cfg.name)
  {
    hide Resolve, Blind, Claims, Listing, SomeEventEnqueues;
    var last := lists[|lists| - 1];
    HistoryAt(lists, 0);
    HistoryAt(lists, |lists| - 1);
    var view := ClaimingView(h, cfg, lists[0], last);
    var k := ViewChangesAtSomeStep(lists, view, |lists| - 1);
    HistoryAt(lists, k);
    HistoryAt(lists, k + 1);
    StepEnqueues(h, configs, cfg, lists[k], lists[k + 1], last, view);
  }

  lemma StepEnqueues(h: Hash, configs: seq<Config>, cfg: Config, before: seq<Server>, after: seq<Server>, live: seq<Server>, view: Server)
    requires Listing(before) && Listing(after) && cfg in configs
    requires (view in before <==> view !in after) && Claims(h, cfg, live, view)
    ensures SomeEventEnqueues(h, configs, before, after, live, cfg.name)
  {
    var e := ChangedViewHasEvent(before, after, view);
    ClaimEnqueues(h, configs, cfg, live, view, e);
  }

  // ---- Exactly when it is complete ----

  ghost predicate Missed(h: Hash, cfg: Config, before: seq<Server>, after: seq<Server>) {
    && Listing(before) && Listing(after)
    && Resolve(h, cfg, before) != Resolve(h, cfg, after)
    && !SomeEventEnqueues(h, [cfg], before, after, after, cfg.name)
  }

  /** Every server name hashes to a finite score for the key. */
  ghost predicate AlwaysScores(h: Hash, key: string) {
    forall name :: name != "" ==> h(name, key).Some?
  }

  function OneServer(name: string, enabled: bool): Server {
    Server(name, false, Some(Sharding(Some(enabled), None)))
  }

  /** Switching off sharding on the only member of a stuck pool changes the answer from
      "" to an error, and no event enqueues the config. */
  lemma StuckPoolIsMissed(h: Hash, cfg: Config, name: string)
    requires !Pinned(cfg) && name != "" && h(name, cfg.shardKey) == None
    ensures Missed(h, cfg, [OneServer(name, true)], [OneServer(name, false)])
  {
    var on, off := OneServer(name, true), OneServer(name, false);
    hide Resolve, ServersWithView;
    StuckAlone(h, cfg, on);
    NothingAlone(h, cfg, off);
    assert Listing([on]) && Listing([off]);
    forall e | Reports([on], [off], e) ensures !EnqueuedBy(h, [cfg], [off], e, cfg.name) {
      OnlyUpdate(on, off, e);
      var views := EventViews(e);
      EnqueuedExactly(h, [cfg], [off], name, views, cfg.name);
      forall k | 0 <= k < |views| ensures !AssignedUnder(h, [cfg], [off], name, views[k], cfg.name) {
        ViewAlone(off, views[k].value);
      }
    }
  }

  lemma OnlyUpdate(on: Server, off: Server, e: Event)
    requires on.name == off.name && Reports([on], [off], e)
    ensures e == Updated(on, off)
  {
    assert on in [on] && off in [off];
    assert Exists([on], on.name) && Exists([off], on.name);
  }

  lemma ViewAlone(s: Server, view: Server)
    requires s.name == view.name
    ensures ServersWithView([s], view) == [view]
  {
    assert Names([s])[0] == s.name;
    assert WithView([s], view)[0] == view;
  }

  lemma StuckAlone(h: Hash, cfg: Config, on: Server)
    requires !Pinned(cfg) && on.name != "" && h(on.name, cfg.shardKey) == None && ShardingEnabled(on)
    ensures Resolve(h, cfg, [on]) == Success("")
  {
    assert on in [on];
    assert on in ShardPool([on]);
    PooledOrNot(h, [on], cfg.shardKey);
    assert StuckPool(h, [on], cfg.shardKey);
  }

  lemma NothingAlone(h: Hash, cfg: Config, off: Server)
    requires !Pinned(cfg) && off.name != "" && !ShardingEnabled(off) && !off.isDefault
    ensures Resolve(h, cfg, [off]) == Failure(NoDefault)
  {
    PooledOrNot(h, [off], cfg.shardKey);
    DefaultsMean([off]);
    assert DefaultNames([off]) == {};
  }

  ghost predicate NeverMisses(h: Hash, key: string) {
    forall cfg: Config, before, after :: cfg.shardKey == key ==> !Missed(h, cfg, before, after)
  }

  /** The fan-out misses nothing for a key, over all pairs of server lists, if and only
      if no server name hashes to u = 1 with it. */
  lemma CompleteExactlyWhenScored(h: Hash, key: string)
    ensures NeverMisses(h, key) <==> AlwaysScores(h, key)
  {
    hide Missed;
    if AlwaysScores(h, key) {
      forall cfg: Config, before, after | cfg.shardKey == key ensures !Missed(h, cfg, before, after) {
        ScoredIsNotMissed(h, cfg, before, after);
      }
    } else {
      var name :| name != "" && h(name, key).None?;
      StuckPoolIsMissed(h, Config("c", None, key, ""), name);
    }
  }

  lemma ScoredIsNotMissed(h: Hash, cfg: Config, before: seq<Server>, after: seq<Server>)
    requires AlwaysScores(h, cfg.shardKey)
    ensures !Missed(h, cfg, before, after)
  {
    hide Resolve, SomeEventEnqueues, StuckPool, AlwaysScores, Listing;
    if Listing(before) && Listing(after) && Resolve(h, cfg, before) != Resolve(h, cfg, after) {
      NeverStuck(h, before, cfg.shardKey);
      NeverStuck(h, after, cfg.shardKey);
      assert cfg in [cfg];
      FanoutComplete(h, [cfg], cfg, before, after);
    }
  }

  lemma NeverStuck(h: Hash, servers: seq<Server>, key: string)
    requires Listing(servers) && AlwaysScores(h, key)
    ensures !StuckPool(h, servers, key)
  {
    if ShardPool(servers) != [] {
      var s := ShardPool(servers)[0];
      assert s in ShardPool(servers) && s in servers;
      assert Scores(h, key, s);
    }
  }
}
