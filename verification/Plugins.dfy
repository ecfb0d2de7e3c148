/**
 * The plugin registry of smart contracts (src/plugin_contracts.rs). The registry keeps, beside the
 * plugins themselves, a list of the enabled ones and an index from hook points to plugin ids. The
 * index is exact in every reachable state when plugins are installed disabled, and an installation
 * is the one operation that can break it otherwise.
 */
module Plugins {
  import opened Wrappers

  datatype Hook =
    | BeforeTransfer | AfterTransfer | BeforeMint | AfterMint | BeforeBurn | AfterBurn
    | BeforeApprove | AfterApprove | CustomHook

  datatype Plugin = Plugin(id: string, name: string, version: string, enabled: bool,
    hooks: set<Hook>, installedAt: nat, runs: nat)

  type Index = map<Hook, seq<string>>

  datatype Registry = Registry(
    owner: string, plugins: map<string, Plugin>, enabled: seq<string>, index: Index, maxPlugins: nat, installed: nat)

  datatype Op =
    | Install(caller: string, plugin: Plugin, block: nat)
    | Enable(caller: string, id: string)
    | Disable(caller: string, id: string)
    | Uninstall(caller: string, id: string)
    | RegisterHook(caller: string, id: string, hook: Hook)
    | UnregisterHook(caller: string, id: string, hook: Hook)
    | Fire(hook: Hook)

  datatype Error =
    | NotOwner | EmptyId | EmptyName | EmptyVersion | AlreadyInstalled | TooMany | NotFound
    | AlreadyEnabled | AlreadyDisabled | StillEnabled

  function New(owner: string, maxPlugins: nat): Registry {
    Registry(owner, map[], [], map[], maxPlugins, 0)
  }

  function Validate(p: Plugin): Option<Error> {
    if p.id == "" then Some(EmptyId)
    else if p.name == "" then Some(EmptyName)
    else if p.version == "" then Some(EmptyVersion)
    else None
  }

  function Refusal(r: Registry, op: Op): Option<Error> {
    match op
    case Install(caller, plugin, _) =>
      if caller != r.owner then Some(NotOwner)
      else if Validate(plugin).Some? then Validate(plugin)
      else if plugin.id in r.plugins then Some(AlreadyInstalled)
      else if |r.plugins| >= r.maxPlugins then Some(TooMany)
      else None
    case Enable(caller, id) =>
      if caller != r.owner then Some(NotOwner)
      else if id !in r.plugins then Some(NotFound)
      else if r.plugins[id].enabled then Some(AlreadyEnabled)
      else None
    case Disable(caller, id) =>
      if caller != r.owner then Some(NotOwner)
      else if id !in r.plugins then Some(NotFound)
      else if !r.plugins[id].enabled then Some(AlreadyDisabled)
      else None
    case Uninstall(caller, id) =>
      if caller != r.owner then Some(NotOwner)
      else if id !in r.plugins then Some(NotFound)
      else if r.plugins[id].enabled then Some(StillEnabled)
      else None
    case RegisterHook(caller, id, _) =>
      if caller != r.owner then Some(NotOwner) else if id !in r.plugins then Some(NotFound) else None
    case UnregisterHook(caller, id, _) =>
      if caller != r.owner then Some(NotOwner) else if id !in r.plugins then Some(NotFound) else None
    case Fire(_) => None
  }

  function Drop(ids: seq<string>, id: string): (r: seq<string>)
    ensures forall x :: x in r <==> x in ids && x != id
  {
    if ids == [] then []
    else
      var last := ids[|ids| - 1];
      assert ids == ids[..|ids| - 1] + [last];
      Drop(ids[..|ids| - 1], id) + if last == id then [] else [last]
  }

  function Handlers(index: Index, hook: Hook): seq<string> {
    if hook in index then index[hook] else []
  }

  /** Append `id` to the entry of every hook in `hooks`. */
  function AddTo(index: Index, hooks: set<Hook>, id: string): Index {
    map h | h in index.Keys + hooks :: if h in hooks then Handlers(index, h) + [id] else index[h]
  }

  /** Drop `id` from the existing entries of the hooks in `hooks`. */
  function RemoveFrom(index: Index, hooks: set<Hook>, id: string): Index {
    map h | h in index :: if h in hooks then Drop(index[h], id) else index[h]
  }

  function Occurrences(ids: seq<string>, id: string): nat {
    multiset(ids)[id]
  }

  /** Every handler that is installed and enabled runs, once per entry. */
  function Ran(plugins: map<string, Plugin>, ids: seq<string>): map<string, Plugin> {
    map id | id in plugins ::
      if plugins[id].enabled then plugins[id].(runs := plugins[id].runs + Occurrences(ids, id)) else plugins[id]
  }

  function Effect(r: Registry, op: Op): Registry
    requires Refusal(r, op).None?
  {
    match op
    case Install(_, plugin, block) =>
      r.(plugins := r.plugins[plugin.id := plugin.(installedAt := block)], installed := r.installed + 1)
    case Enable(_, id) =>
      r.(plugins := r.plugins[id := r.plugins[id].(enabled := true)],
         enabled := r.enabled + [id], index := AddTo(r.index, r.plugins[id].hooks, id))
    case Disable(_, id) =>
      r.(plugins := r.plugins[id := r.plugins[id].(enabled := false)],
         enabled := Drop(r.enabled, id), index := RemoveFrom(r.index, r.plugins[id].hooks, id))
    case Uninstall(_, id) => r.(plugins := r.plugins - {id})
    case RegisterHook(_, id, hook) =>
      var p := r.plugins[id];
      r.(plugins := r.plugins[id := p.(hooks := p.hooks + {hook})],
         index := if p.enabled then AddTo(r.index, {hook}, id) else r.index)
    case UnregisterHook(_, id, hook) =>
      var p := r.plugins[id];
      r.(plugins := r.plugins[id := p.(hooks := p.hooks - {hook})], index := RemoveFrom(r.index, {hook}, id))
    case Fire(hook) => r.(plugins := Ran(r.plugins, Handlers(r.index, hook)))
  }

  function Step(r: Registry, op: Op): Registry {
    if Refusal(r, op).None? then Effect(r, op) else r
  }

  function Run(owner: string, maxPlugins: nat, ops: seq<Op>): Registry {
    if ops == [] then New(owner, maxPlugins) else Step(Run(owner, maxPlugins, ops[..|ops| - 1]), ops[|ops| - 1])
  }

  // ---------------------------------------------------------------------------------------------
  // The index is exact

  predicate IsEnabled(plugins: map<string, Plugin>, id: string) {
    id in plugins && plugins[id].enabled
  }

  predicate Handles(plugins: map<string, Plugin>, id: string, hook: Hook) {
    IsEnabled(plugins, id) && hook in plugins[id].hooks
  }

  ghost predicate IndexedAt(r: Registry, id: string, hook: Hook) {
    id in Handlers(r.index, hook) <==> Handles(r.plugins, id, hook)
  }

  ghost predicate ListedAt(r: Registry, id: string) {
    id in r.enabled <==> IsEnabled(r.plugins, id)
  }

  ghost predicate Distinct(ids: seq<string>) {
    forall i, j :: 0 <= i < j < |ids| ==> ids[i] != ids[j]
  }

  ghost predicate Inv(r: Registry) {
    && (forall id, h :: IndexedAt(r, id, h))
    && (forall id :: ListedAt(r, id))
    && Distinct(r.enabled)
  }

  lemma {:induction false} DropIsDistinct(ids: seq<string>, id: string)
    requires Distinct(ids)
    ensures Distinct(Drop(ids, id))
  {
    if ids != [] {
      var front, last := ids[..|ids| - 1], ids[|ids| - 1];
      DropIsDistinct(front, id);
      assert last !in front;
    }
  }

  lemma {:induction false} StepKeepsIndex(r: Registry, op: Op, id: string, h: Hook)
    requires Inv(r) && (op.Install? ==> !op.plugin.enabled)
    ensures IndexedAt(Step(r, op), id, h)
  {
    assert IndexedAt(r, id, h);
  }

  lemma {:induction false} StepKeepsList(r: Registry, op: Op, id: string)
    requires Inv(r) && (op.Install? ==> !op.plugin.enabled)
    ensures ListedAt(Step(r, op), id)
  {
    assert ListedAt(r, id);
  }

  lemma {:induction false} StepKeepsDistinct(r: Registry, op: Op)
    requires Inv(r)
    ensures Distinct(Step(r, op).enabled)
  {
    if Refusal(r, op).None? {
      if op.Enable? {
        assert ListedAt(r, op.id);
      } else if op.Disable? {
        DropIsDistinct(r.enabled, op.id);
      }
    }
  }

  lemma {:induction false} StepKeepsInv(r: Registry, op: Op)
    requires Inv(r) && (op.Install? ==> !op.plugin.enabled)
    ensures Inv(Step(r, op))
  {
    var r' := Step(r, op);
    forall id, h ensures IndexedAt(r', id, h) {
      StepKeepsIndex(r, op, id, h);
    }
    forall id ensures ListedAt(r', id) {
      StepKeepsList(r, op, id);
    }
    StepKeepsDistinct(r, op);
  }

  /** When plugins are installed disabled, the index and the list are exact in every reachable state. */
  lemma {:induction false} RunKeepsInv(owner: string, maxPlugins: nat, ops: seq<Op>)
    requires forall i :: 0 <= i < |ops| && ops[i].Install? ==> !ops[i].plugin.enabled
    ensures Inv(Run(owner, maxPlugins, ops))
  {
    if ops == [] {
      var r := New(owner, maxPlugins);
      assert forall id, h :: IndexedAt(r, id, h);
    } else {
      RunKeepsInv(owner, maxPlugins, ops[..|ops| - 1]);
      StepKeepsInv(Run(owner, maxPlugins, ops[..|ops| - 1]), ops[|ops| - 1]);
    }
  }

  /** An accepted installation keeps the registry exact if and only if the plugin comes disabled. */
  lemma {:induction false} InstallKeepsInvExactly(r: Registry, caller: string, plugin: Plugin, block: nat)
    requires Inv(r) && Refusal(r, Install(caller, plugin, block)).None?
    ensures Inv(Step(r, Install(caller, plugin, block))) <==> !plugin.enabled
  {
    if plugin.enabled {
      var r' := Step(r, Install(caller, plugin, block));
      assert ListedAt(r, plugin.id);
      assert !ListedAt(r', plugin.id);
    } else {
      StepKeepsInv(r, Install(caller, plugin, block));
    }
  }

  /** Registering a hook that an enabled plugin already declares lists it once more, so it runs once more. */
  lemma {:induction false} RegistrationAddsOneRun(r: Registry, caller: string, id: string, hook: Hook)
    requires Refusal(r, RegisterHook(caller, id, hook)).None? && r.plugins[id].enabled
    ensures var r' := Step(r, RegisterHook(caller, id, hook));
            Occurrences(Handlers(r'.index, hook), id) == Occurrences(Handlers(r.index, hook), id) + 1
  {
  }

  // ---------------------------------------------------------------------------------------------
  // Statistics

  ghost function Enabled(plugins: map<string, Plugin>): set<string> {
    set id | id in plugins && plugins[id].enabled
  }

  ghost function Elements(ids: seq<string>): (s: set<string>)
    ensures forall x :: x in s <==> x in ids
    ensures Distinct(ids) ==> |s| == |ids|
  {
    if ids == [] then {}
    else
      var front, last := ids[..|ids| - 1], ids[|ids| - 1];
      assert ids == front + [last];
      assert Distinct(ids) ==> Distinct(front) && last !in front;
      Elements(front) + {last}
  }

  /** The list never names a plugin that is not enabled, and none twice. */
  ghost predicate ListSound(r: Registry) {
    (forall id :: id in r.enabled ==> IsEnabled(r.plugins, id)) && Distinct(r.enabled)
  }

  lemma {:induction false} StepKeepsListSound(r: Registry, op: Op)
    requires ListSound(r)
    ensures ListSound(Step(r, op))
  {
    if Refusal(r, op).None? {
      if op.Disable? {
        DropIsDistinct(r.enabled, op.id);
      } else if op.Enable? {
        assert op.id !in r.enabled;
      }
    }
  }

  /** In every run, however plugins are installed, the subtraction in the statistics cannot underflow. */
  lemma {:induction false} StatisticsNeverUnderflow(owner: string, maxPlugins: nat, ops: seq<Op>)
    ensures ListSound(Run(owner, maxPlugins, ops))
    ensures |Run(owner, maxPlugins, ops).enabled| <= |Run(owner, maxPlugins, ops).plugins|
  {
    var r := Run(owner, maxPlugins, ops);
    if ops != [] {
      StatisticsNeverUnderflow(owner, maxPlugins, ops[..|ops| - 1]);
      StepKeepsListSound(Run(owner, maxPlugins, ops[..|ops| - 1]), ops[|ops| - 1]);
    }
    ListFits(r);
  }

  lemma {:induction false} ListFits(r: Registry)
    requires ListSound(r)
    ensures |r.enabled| <= |r.plugins|
  {
    assert Elements(r.enabled) <= r.plugins.Keys;
    SubsetSize(Elements(r.enabled), r.plugins.Keys);
    assert |r.plugins| == |r.plugins.Keys|;
  }

  /** In an exact registry the two counts are the enabled and the disabled plugins. */
  lemma {:induction false} StatisticsAreExact(r: Registry)
    requires Inv(r)
    ensures |r.enabled| == |Enabled(r.plugins)| <= |r.plugins|
    ensures |r.plugins| - |r.enabled| == |r.plugins.Keys - Enabled(r.plugins)|
  {
    forall id ensures id in Elements(r.enabled) <==> id in Enabled(r.plugins) {
      assert ListedAt(r, id);
    }
    assert Elements(r.enabled) == Enabled(r.plugins) <= r.plugins.Keys;
    assert |r.plugins| == |r.plugins.Keys|;
    SubsetSize(Enabled(r.plugins), r.plugins.Keys);
  }

  lemma {:induction false} SubsetSize(a: set<string>, b: set<string>)
    requires a <= b
    ensures |a| <= |b| && |b - a| == |b| - |a|
  {
    assert b == a + (b - a);
  }

  // ---------------------------------------------------------------------------------------------
  // The registry object

  datatype HookResult = HookResult(id: string, hook: Hook, context: string)

  class PluginRegistry {
    const owner: string
    const maxPlugins: nat
    var plugins: map<string, Plugin>
    var enabled: seq<string>
    var index: Index
    var installed: nat

    ghost function View(): Registry
      reads this
    {
      Registry(owner, plugins, enabled, index, maxPlugins, installed)
    }

    constructor (owner: string, maxPlugins: nat)
      ensures View() == New(owner, maxPlugins)
    {
      this.owner, this.maxPlugins := owner, maxPlugins;
      plugins, enabled, index, installed := map[], [], map[], 0;
    }

    method InstallPlugin(caller: string, plugin: Plugin, block: nat) returns (e: Option<Error>)
      modifies this
      ensures e == Refusal(old(View()), Install(caller, plugin, block))
      ensures View() == Step(old(View()), Install(caller, plugin, block))
    {
      if caller != owner {
        return Some(NotOwner);
      }
      e := Validate(plugin);
      if e.Some? {
        return;
      }
      if plugin.id in plugins {
        return Some(AlreadyInstalled);
      }
      if |plugins| >= maxPlugins {
        return Some(TooMany);
      }
      plugins := plugins[plugin.id := plugin.(installedAt := block)];
      installed := installed + 1;
    }

    /** The loop over a plugin's hooks, in whatever order the set yields them. */
    method AddHooks(hooks: set<Hook>, id: string)
      modifies this`index
      ensures index == AddTo(old(index), hooks, id)
    {
      var left := hooks;
      while left != {}
        invariant left <= hooks && index == AddTo(old(index), hooks - left, id)
        decreases |left|
      {
        var h :| h in left;
        index := index[h := Handlers(index, h) + [id]];
        left := left - {h};
        assert index == AddTo(old(index), hooks - left, id);
      }
      assert hooks - left == hooks;
    }

    method RemoveHooks(hooks: set<Hook>, id: string)
      modifies this`index
      ensures index == RemoveFrom(old(index), hooks, id)
    {
      var left := hooks;
      while left != {}
        invariant left <= hooks && index == RemoveFrom(old(index), hooks - left, id)
        decreases |left|
      {
        var h :| h in left;
        if h in index {
          index := index[h := Drop(index[h], id)];
        }
        left := left - {h};
        assert index == RemoveFrom(old(index), hooks - left, id);
      }
      assert hooks - left == hooks;
    }

    method EnablePlugin(caller: string, id: string) returns (e: Option<Error>)
      modifies this
      ensures e == Refusal(old(View()), Enable(caller, id)) && View() == Step(old(View()), Enable(caller, id))
    {
      if caller != owner {
        return Some(NotOwner);
      }
      if id !in plugins {
        return Some(NotFound);
      }
      var p := plugins[id];
      if p.enabled {
        return Some(AlreadyEnabled);
      }
      plugins := plugins[id := p.(enabled := true)];
      enabled := enabled + [id];
      AddHooks(p.hooks, id);
      e := None;
    }

    method DisablePlugin(caller: string, id: string) returns (e: Option<Error>)
      modifies this
      ensures e == Refusal(old(View()), Disable(caller, id)) && View() == Step(old(View()), Disable(caller, id))
    {
      if caller != owner {
        return Some(NotOwner);
      }
      if id !in plugins {
        return Some(NotFound);
      }
      var p := plugins[id];
      if !p.enabled {
        return Some(AlreadyDisabled);
      }
      plugins := plugins[id := p.(enabled := false)];
      enabled := Drop(enabled, id);
      RemoveHooks(p.hooks, id);
      e := None;
    }

    method UninstallPlugin(caller: string, id: string) returns (e: Option<Error>)
      modifies this
      ensures e == Refusal(old(View()), Uninstall(caller, id)) && View() == Step(old(View()), Uninstall(caller, id))
    {
      if caller != owner {
        return Some(NotOwner);
      }
      if id !in plugins {
        return Some(NotFound);
      }
      if plugins[id].enabled {
        return Some(StillEnabled);
      }
      plugins := plugins - {id};
      e := None;
    }

    method Register(caller: string, id: string, hook: Hook) returns (e: Option<Error>)
      modifies this
      ensures e == Refusal(old(View()), RegisterHook(caller, id, hook))
      ensures View() == Step(old(View()), RegisterHook(caller, id, hook))
    {
      if caller != owner {
        return Some(NotOwner);
      }
      if id !in plugins {
        return Some(NotFound);
      }
      var p := plugins[id];
      plugins := plugins[id := p.(hooks := p.hooks + {hook})];
      if p.enabled {
        AddHooks({hook}, id);
      }
      e := None;
    }

    method Unregister(caller: string, id: string, hook: Hook) returns (e: Option<Error>)
      modifies this
      ensures e == Refusal(old(View()), UnregisterHook(caller, id, hook))
      ensures View() == Step(old(View()), UnregisterHook(caller, id, hook))
    {
      if caller != owner {
        return Some(NotOwner);
      }
      if id !in plugins {
        return Some(NotFound);
      }
      plugins := plugins[id := plugins[id].(hooks := plugins[id].hooks - {hook})];
      RemoveHooks({hook}, id);
      e := None;
    }

    /** One result for every entry whose plugin is there and enabled, in order, and one run counted for each. */
    method ExecuteHook(hook: Hook, context: string) returns (results: seq<HookResult>)
      modifies this`plugins
      ensures View() == Step(old(View()), Fire(hook))
      ensures results == ResultsOf(old(plugins), Handlers(index, hook), hook, context)
    {
      results := [];
      var ids := Handlers(index, hook);
      ghost var before := plugins;
      NothingRan(before);
      for i := 0 to |ids|
        invariant plugins == Ran(before, ids[..i])
        invariant results == ResultsOf(before, ids[..i], hook, context)
      {
        var id := ids[i];
        OneMoreRun(before, ids, i);
        assert ids[..i + 1][..i] == ids[..i];
        if id in plugins && plugins[id].enabled {
          plugins := plugins[id := plugins[id].(runs := plugins[id].runs + 1)];
          results := results + [HookResult(id, hook, context)];
        }
      }
      assert ids[..|ids|] == ids;
    }

    method EnabledAndDisabled() returns (on: nat, off: nat)
      requires ListSound(View())
      ensures on + off == |plugins| && on == |enabled|
      ensures Inv(View()) ==> on == |Enabled(plugins)| && off == |plugins.Keys - Enabled(plugins)|
    {
      ListFits(View());
      if Inv(View()) {
        StatisticsAreExact(View());
      }
      on := |enabled|;
      off := |plugins| - on;
    }
  }

  function ResultsOf(plugins: map<string, Plugin>, ids: seq<string>, hook: Hook, context: string): seq<HookResult> {
    if ids == [] then []
    else
      var last := ids[|ids| - 1];
      ResultsOf(plugins, ids[..|ids| - 1], hook, context)
      + if IsEnabled(plugins, last) then [HookResult(last, hook, context)] else []
  }

  /** In an exact registry `execute_hook` skips nothing: the `i`-th result is the `i`-th entry's. */
  lemma {:induction false} NothingIsSkipped(r: Registry, hook: Hook, context: string, ids: seq<string>, i: nat)
    requires Inv(r) && ids <= Handlers(r.index, hook) && i < |ids|
    ensures |ResultsOf(r.plugins, ids, hook, context)| == |ids|
    ensures ResultsOf(r.plugins, ids, hook, context)[i] == HookResult(ids[i], hook, context)
  {
    var front, last := ids[..|ids| - 1], ids[|ids| - 1];
    assert last in Handlers(r.index, hook) && IndexedAt(r, last, hook);
    if front == [] {
      assert ResultsOf(r.plugins, front, hook, context) == [];
    } else {
      NothingIsSkipped(r, hook, context, front, if i < |front| then i else 0);
    }
  }

  lemma {:induction false} NothingRan(plugins: map<string, Plugin>)
    ensures Ran(plugins, []) == plugins
  {
  }

  lemma {:induction false} OneMoreRun(plugins: map<string, Plugin>, ids: seq<string>, i: nat)
    requires i < |ids|
    ensures var id, ran := ids[i], Ran(plugins, ids[..i]);
            && (IsEnabled(plugins, id) <==> IsEnabled(ran, id))
            && Ran(plugins, ids[..i + 1])
               == if IsEnabled(ran, id) then ran[id := ran[id].(runs := ran[id].runs + 1)] else ran
  {
    assert ids[..i + 1] == ids[..i] + [ids[i]];
  }
}
