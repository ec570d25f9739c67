/**
 * The module registry and the modules it dispatches to.
 *
 * `ModuleMgr` keeps the roster of registered modules, in registration
 * order, and has one dispatcher per hook. Each dispatcher walks the
 * roster once; its contract ties the answer it gives and the hook calls
 * it makes (a ghost out-parameter, `invoked`) to the walks specified in
 * DispatchSpec.
 *
 * `CmangosModule` is a module as its constructor, configuration loading,
 * initialisation and destructor define it: it registers itself on
 * construction and owns a configuration object that may be absent.
 * `ModuleConfig` is that configuration object, reduced to its file name
 * and the outcome of loading it.
 *
 * The three classes share one module because a module registers itself
 * with the registry while the registry holds the modules.
 */
module Registry {
  import opened Entities
  import opened ModuleHooks
  import opened DispatchSpec

  /**
   * What a module's configuration factory builds: the file it reads and
   * whether reading it succeeds (opening the file and the module's own
   * parsing of it, both outside this model).
   */
  datatype ConfigSpec = ConfigSpec(filename: string, loads: bool)

  /** A module's configuration. */
  class ModuleConfig {
    const filename: string
    const loads: bool
    /** How often Load was called. */
    ghost var loadCalls: nat
    /** Whether the configuration has been deleted. */
    ghost var released: bool

    constructor (spec: ConfigSpec)
      ensures filename == spec.filename && loads == spec.loads
      ensures loadCalls == 0 && !released
    {
      filename := spec.filename;
      loads := spec.loads;
      loadCalls := 0;
      released := false;
    }

    /** Read the file; the answer says whether that succeeded. */
    method Load() returns (ok: bool)
      modifies this`loadCalls
      ensures ok == loads
      ensures loadCalls == old(loadCalls) + 1
    {
      ok := loads;
      loadCalls := loadCalls + 1;
    }

    /** Delete the configuration. */
    method Release()
      modifies this`released
      ensures released
    {
      released := true;
    }
  }

  class CmangosModule {
    const name: string
    /** The hooks this module overrides, with the base-class answers elsewhere. */
    const overrides: Overrides
    /** What this module's configuration factory creates. */
    const configSpec: ConfigSpec
    var config: ModuleConfig?

    /** The module's configuration as stored, absent until LoadConfig. */
    function GetConfig(): (c: ModuleConfig?)
      reads this
      ensures c == config
    {
      config
    }

    /** Construct a module without configuration and append it to the registry's roster. */
    constructor (name: string, overrides: Overrides, configSpec: ConfigSpec, registry: ModuleMgr)
      modifies registry
      ensures this.name == name && this.overrides == overrides && this.configSpec == configSpec
      ensures GetConfig() == null
      ensures registry.modules == old(registry.modules) + [this]
      ensures this !in old(registry.modules)
    {
      this.name := name;
      this.overrides := overrides;
      this.configSpec := configSpec;
      config := null;
      new;
      registry.RegisterModule(this);
    }

    /**
     * Create a fresh configuration and load it. The outcome of the load is
     * ignored: the module has a configuration afterwards either way. A
     * configuration the module already had is neither released nor
     * touched.
     */
    method LoadConfig()
      modifies this`config
      ensures GetConfig() != null && fresh(GetConfig())
      ensures GetConfig().filename == configSpec.filename && GetConfig().loads == configSpec.loads
      ensures GetConfig().loadCalls == 1 && !GetConfig().released
      ensures old(config) != null ==> unchanged(old(config))
    {
      config := new ModuleConfig(configSpec);
      var _ := config.Load();
    }

    /** Initialise the module: its OnInitialize hook is invoked once. */
    method Initialize() returns (ghost invoked: seq<Call<CmangosModule>>)
      ensures invoked == [Call(this, OnInitialize)]
    {
      invoked := [Call(this, OnInitialize)];
    }

    /** The destructor: release the configuration, if any, and forget it. */
    method Destroy()
      modifies this`config, config
      ensures GetConfig() == null
      ensures old(config) != null ==> old(config).released
      ensures old(config) != null ==> old(config).loadCalls == old(config.loadCalls)
    {
      if config != null {
        config.Release();
      }
      config := null;
    }
  }

  // How each dispatcher asks one module for its answer.

  function UseItemAnswer(player: Player, item: Item): CmangosModule -> bool
  {
    (m: CmangosModule) => m.overrides.onUseItem(player, item)
  }

  function GossipHelloAnswer(player: Player, creature: Creature): CmangosModule -> bool
  {
    (m: CmangosModule) => m.overrides.onGossipHello(player, creature)
  }

  function GossipSelectAnswer(player: Player, target: GossipTarget, option: GossipOption): CmangosModule -> bool
  {
    (m: CmangosModule) => SelectAnswer(m.overrides, player, target, option)
  }

  function LoadButtonsAnswer(player: Player): (CmangosModule, ActionButtonList) -> Reply<ActionButtonList>
  {
    (m: CmangosModule, buttons: ActionButtonList) => m.overrides.onLoadActionButtons(player, buttons)
  }

  function SaveButtonsAnswer(player: Player): (CmangosModule, ActionButtonList) -> Reply<ActionButtonList>
  {
    (m: CmangosModule, buttons: ActionButtonList) => m.overrides.onSaveActionButtons(player, buttons)
  }

  function LoadButtonsCall(player: Player): ActionButtonList -> HookCall
  {
    buttons => HookCall.OnLoadActionButtons(player, buttons)
  }

  function SaveButtonsCall(player: Player): ActionButtonList -> HookCall
  {
    buttons => HookCall.OnSaveActionButtons(player, buttons)
  }

  /**
   * A module that keeps every base-class answer changes no first-wins
   * dispatch: removing it from the roster leaves the answer of each
   * first-wins dispatcher as it was.
   */
  lemma DefaultModuleChangesNoDispatch(ms: seq<CmangosModule>, i: nat, player: Player, item: Item, creature: Creature,
                                       target: GossipTarget, option: GossipOption)
    requires i < |ms| && ms[i].overrides == DefaultOverrides()
    ensures var without := ms[..i] + ms[i + 1..];
      && FirstWins(without, UseItemAnswer(player, item), HookCall.OnUseItem(player, item)).handled ==
         FirstWins(ms, UseItemAnswer(player, item), HookCall.OnUseItem(player, item)).handled
      && FirstWins(without, GossipHelloAnswer(player, creature), HookCall.OnGossipHello(player, creature)).handled ==
         FirstWins(ms, GossipHelloAnswer(player, creature), HookCall.OnGossipHello(player, creature)).handled
      && FirstWins(without, GossipSelectAnswer(player, target, option), HookCall.OnGossipSelect(player, target, option)).handled ==
         FirstWins(ms, GossipSelectAnswer(player, target, option), HookCall.OnGossipSelect(player, target, option)).handled
  {
    DefaultOverridesNeverOverride();
    DecliningModuleIsTransparent(ms, i, UseItemAnswer(player, item), HookCall.OnUseItem(player, item));
    DecliningModuleIsTransparent(ms, i, GossipHelloAnswer(player, creature), HookCall.OnGossipHello(player, creature));
    DecliningModuleIsTransparent(ms, i, GossipSelectAnswer(player, target, option), HookCall.OnGossipSelect(player, target, option));
  }

  /**
   * A module that keeps the base-class action-button hooks changes neither
   * the answer nor the resulting list of a load or save dispatch.
   */
  lemma DefaultModuleLeavesButtonsAlone(ms: seq<CmangosModule>, i: nat, player: Player, buttons: ActionButtonList)
    requires i < |ms| && ms[i].overrides == DefaultOverrides()
    ensures var without := ms[..i] + ms[i + 1..];
      var load := RunThreaded(ms, LoadButtonsAnswer(player), LoadButtonsCall(player), buttons);
      var save := RunThreaded(ms, SaveButtonsAnswer(player), SaveButtonsCall(player), buttons);
      && RunThreaded(without, LoadButtonsAnswer(player), LoadButtonsCall(player), buttons).handled == load.handled
      && RunThreaded(without, LoadButtonsAnswer(player), LoadButtonsCall(player), buttons).out == load.out
      && RunThreaded(without, SaveButtonsAnswer(player), SaveButtonsCall(player), buttons).handled == save.handled
      && RunThreaded(without, SaveButtonsAnswer(player), SaveButtonsCall(player), buttons).out == save.out
  {
    RunThreadedSkipsInertModule(ms, i, LoadButtonsAnswer(player), LoadButtonsCall(player), buttons);
    RunThreadedSkipsInertModule(ms, i, SaveButtonsAnswer(player), SaveButtonsCall(player), buttons);
  }

  class ModuleMgr {
    /** The roster, in registration order. */
    var modules: seq<CmangosModule>

    constructor ()
      ensures modules == []
    {
      modules := [];
    }

    /** The destructor: empty the roster. The modules themselves are not touched. */
    method Destroy()
      modifies this`modules
      ensures modules == []
    {
      modules := [];
    }

    /** Append a module to the roster; a module already there is appended again. */
    method RegisterModule(m: CmangosModule)
      modifies this`modules
      ensures modules == old(modules) + [m]
    {
      modules := modules + [m];
    }

    // ------------------------------------------------------------ fan-out

    /** Invoke hook `h` on every module, in roster order. */
    method NotifyAll(h: HookCall) returns (ghost invoked: seq<Call<CmangosModule>>)
      ensures invoked == Broadcast(modules, h)
    {
      invoked := [];
      var i := 0;
      while i < |modules|
        invariant 0 <= i <= |modules|
        invariant invoked == Broadcast(modules[..i], h)
      {
        invoked := invoked + [Call(modules[i], h)];
        i := i + 1;
        assert modules[..i][..i - 1] == modules[..i - 1];
      }
      assert modules[..i] == modules;
    }

    method OnLearnTalent(player: Player, spellId: uint32) returns (ghost invoked: seq<Call<CmangosModule>>)
      ensures invoked == Broadcast(modules, HookCall.OnLearnTalent(player, spellId))
    {
      invoked := NotifyAll(HookCall.OnLearnTalent(player, spellId));
    }

    method OnResetTalents(player: Player, cost: uint32) returns (ghost invoked: seq<Call<CmangosModule>>)
      ensures invoked == Broadcast(modules, HookCall.OnResetTalents(player, cost))
    {
      invoked := NotifyAll(HookCall.OnResetTalents(player, cost));
    }

    method OnPreLoadFromDB(playerId: uint32) returns (ghost invoked: seq<Call<CmangosModule>>)
      ensures invoked == Broadcast(modules, HookCall.OnPreLoadFromDB(playerId))
    {
      invoked := NotifyAll(HookCall.OnPreLoadFromDB(playerId));
    }

    method OnLoadFromDB(player: Player) returns (ghost invoked: seq<Call<CmangosModule>>)
      ensures invoked == Broadcast(modules, HookCall.OnLoadFromDB(player))
    {
      invoked := NotifyAll(HookCall.OnLoadFromDB(player));
    }

    method OnSaveToDB(player: Player) returns (ghost invoked: seq<Call<CmangosModule>>)
      ensures invoked == Broadcast(modules, HookCall.OnSaveToDB(player))
    {
      invoked := NotifyAll(HookCall.OnSaveToDB(player));
    }

    method OnLogOut(player: Player) returns (ghost invoked: seq<Call<CmangosModule>>)
      ensures invoked == Broadcast(modules, HookCall.OnLogOut(player))
    {
      invoked := NotifyAll(HookCall.OnLogOut(player));
    }

    method OnCharacterCreated(player: Player) returns (ghost invoked: seq<Call<CmangosModule>>)
      ensures invoked == Broadcast(modules, HookCall.OnCharacterCreated(player))
    {
      invoked := NotifyAll(HookCall.OnCharacterCreated(player));
    }

    method OnCharacterDeleted(playerId: uint32) returns (ghost invoked: seq<Call<CmangosModule>>)
      ensures invoked == Broadcast(modules, HookCall.OnCharacterDeleted(playerId))
    {
      invoked := NotifyAll(HookCall.OnCharacterDeleted(playerId));
    }

    /** Initialise each module and then tell it the world is ready, module by module. */
    method OnWorldInitialized() returns (ghost invoked: seq<Call<CmangosModule>>)
      ensures invoked == InitializationOrder(modules)
    {
      invoked := [];
      var i := 0;
      while i < |modules|
        invariant 0 <= i <= |modules|
        invariant invoked == InitializationOrder(modules[..i])
      {
        var m := modules[i];
        ghost var initialized := m.Initialize();
        invoked := invoked + initialized + [Call(m, HookCall.OnWorldInitialized)];
        i := i + 1;
        assert modules[..i][..i - 1] == modules[..i - 1];
      }
      assert modules[..i] == modules;
    }

    // --------------------------------------------------------- first wins

    /** Ask the modules in roster order and stop at the first that answers true. */
    method AskInOrder(handles: CmangosModule -> bool, h: HookCall)
      returns (handled: bool, ghost invoked: seq<Call<CmangosModule>>)
      ensures handled == FirstWins(modules, handles, h).handled
      ensures invoked == FirstWins(modules, handles, h).invoked
    {
      invoked := [];
      var i := 0;
      while i < |modules|
        invariant 0 <= i <= |modules|
        invariant forall j :: 0 <= j < i ==> !handles(modules[j])
        invariant invoked == Broadcast(modules[..i], h)
      {
        invoked := invoked + [Call(modules[i], h)];
        assert modules[..i + 1][..i] == modules[..i];
        if handles(modules[i]) {
          assert FirstHandler(modules, handles) == i;
          return true, invoked;
        }
        i := i + 1;
      }
      assert modules[..i] == modules;
      return false, invoked;
    }

    method OnUseItem(player: Player, item: Item) returns (handled: bool, ghost invoked: seq<Call<CmangosModule>>)
      ensures var o := FirstWins(modules, UseItemAnswer(player, item), HookCall.OnUseItem(player, item));
        handled == o.handled && invoked == o.invoked
      ensures handled <==> exists i :: 0 <= i < |modules| && modules[i].overrides.onUseItem(player, item)
    {
      handled, invoked := AskInOrder(UseItemAnswer(player, item), HookCall.OnUseItem(player, item));
    }

    method OnGossipHello(player: Player, creature: Creature) returns (handled: bool, ghost invoked: seq<Call<CmangosModule>>)
      ensures var o := FirstWins(modules, GossipHelloAnswer(player, creature), HookCall.OnGossipHello(player, creature));
        handled == o.handled && invoked == o.invoked
      ensures handled <==> exists i :: 0 <= i < |modules| && modules[i].overrides.onGossipHello(player, creature)
    {
      handled, invoked := AskInOrder(GossipHelloAnswer(player, creature), HookCall.OnGossipHello(player, creature));
    }

    /**
     * Resolve the guid to a creature, game object or item the player can
     * interact with, and only then ask the modules' matching overload in
     * roster order, first wins.
     */
    method OnGossipSelect(player: Option<Player>, guid: ObjectGuid, sender: uint32, action: uint32, code: string, lookup: Lookup)
      returns (handled: bool, ghost invoked: seq<Call<CmangosModule>>)
      ensures ResolveGossipTarget(player, guid, lookup).None? ==> !handled && invoked == []
      ensures ResolveGossipTarget(player, guid, lookup).Some? ==>
        && player.Some?
        && var target := ResolveGossipTarget(player, guid, lookup).value;
           var option := GossipOption(sender, action, code);
           var o := FirstWins(modules, GossipSelectAnswer(player.value, target, option),
                              HookCall.OnGossipSelect(player.value, target, option));
           handled == o.handled && invoked == o.invoked
      ensures handled <==>
        && player.Some?
        && ResolveGossipTarget(player, guid, lookup).Some?
        && exists i :: 0 <= i < |modules| &&
             SelectAnswer(modules[i].overrides, player.value, ResolveGossipTarget(player, guid, lookup).value,
                          GossipOption(sender, action, code))
    {
      handled, invoked := false, [];
      var option := GossipOption(sender, action, code);
      if player.Some? {
        var p := player.value;
        var target: Option<GossipTarget> := None;
        if guid.IsAnyTypeCreature() {
          var creature := lookup.npcIfCanInteractWith(p, guid);
          if creature.Some? {
            target := Some(CreatureTarget(creature.value));
          }
        } else if guid.IsGameObject() {
          var gameObject := lookup.gameObjectIfCanInteractWith(p, guid);
          if gameObject.Some? {
            target := Some(GameObjectTarget(gameObject.value));
          }
        } else if guid.IsItem() {
          var item := lookup.itemByGuid(p, guid);
          if item.Some? {
            target := Some(ItemTarget(item.value));
          }
        }
        if target.Some? {
          var t := target.value;
          handled, invoked := AskInOrder(GossipSelectAnswer(p, t, option), HookCall.OnGossipSelect(p, t, option));
        }
      }
    }

    // ----------------------------------------- first wins, list by reference

    /**
     * Ask the modules in roster order, handing each the action-button list
     * as the modules before it left it, and stop at the first that answers
     * true.
     */
    method AskInOrderByReference(ask: (CmangosModule, ActionButtonList) -> Reply<ActionButtonList>,
                                 record: ActionButtonList -> HookCall, buttons: ActionButtonList)
      returns (handled: bool, buttonsAfter: ActionButtonList, ghost invoked: seq<Call<CmangosModule>>)
      ensures var o := RunThreaded(modules, ask, record, buttons);
        handled == o.handled && buttonsAfter == o.out
      ensures invoked == RunThreaded(modules, ask, record, buttons).invoked
    {
      ghost var whole := RunThreaded(modules, ask, record, buttons);
      buttonsAfter := buttons;
      invoked := [];
      ghost var seen: seq<ActionButtonList> := [];
      var i := 0;
      assert modules[0..] == modules;
      assert whole == Resume(invoked, seen, whole);
      while i < |modules|
        invariant 0 <= i <= |modules|
        invariant whole == Resume(invoked, seen, RunThreaded(modules[i..], ask, record, buttonsAfter))
      {
        var reply := ask(modules[i], buttonsAfter);
        RunThreadedStep(modules, i, ask, record, buttonsAfter, invoked, seen);
        invoked := invoked + [Call(modules[i], record(buttonsAfter))];
        seen := seen + [buttonsAfter];
        buttonsAfter := reply.out;
        if reply.handled {
          return true, buttonsAfter, invoked;
        }
        i := i + 1;
      }
      assert invoked + [] == invoked;
      return false, buttonsAfter, invoked;
    }

    method OnLoadActionButtons(player: Player, buttons: ActionButtonList)
      returns (handled: bool, buttonsAfter: ActionButtonList, ghost invoked: seq<Call<CmangosModule>>)
      ensures var o := RunThreaded(modules, LoadButtonsAnswer(player), LoadButtonsCall(player), buttons);
        handled == o.handled && buttonsAfter == o.out
      ensures invoked == RunThreaded(modules, LoadButtonsAnswer(player), LoadButtonsCall(player), buttons).invoked
    {
      handled, buttonsAfter, invoked := AskInOrderByReference(LoadButtonsAnswer(player), LoadButtonsCall(player), buttons);
    }

    method OnSaveActionButtons(player: Player, buttons: ActionButtonList)
      returns (handled: bool, buttonsAfter: ActionButtonList, ghost invoked: seq<Call<CmangosModule>>)
      ensures var o := RunThreaded(modules, SaveButtonsAnswer(player), SaveButtonsCall(player), buttons);
        handled == o.handled && buttonsAfter == o.out
      ensures invoked == RunThreaded(modules, SaveButtonsAnswer(player), SaveButtonsCall(player), buttons).invoked
    {
      handled, buttonsAfter, invoked := AskInOrderByReference(SaveButtonsAnswer(player), SaveButtonsCall(player), buttons);
    }
  }
}
