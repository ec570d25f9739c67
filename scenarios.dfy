/**
 * Small rosters driven through the registry, the way the server uses it:
 * modules register themselves on construction, then the host dispatches
 * hooks to them. Each scenario states its expected outcome as assertions
 * that follow from the dispatchers' contracts alone.
 */
module Scenarios {
  import opened Entities
  import opened ModuleHooks
  import opened DispatchSpec
  import opened Registry

  /** A module that takes over every item use, registered ahead of one that never does. */
  method UseItemStopsAtFirstTaker()
  {
    var registry := new ModuleMgr();
    var taker := new CmangosModule("taker", DefaultOverrides().(onUseItem := (p: Player, i: Item) => true),
                                   ConfigSpec("taker.conf", true), registry);
    var idle := new CmangosModule("idle", DefaultOverrides(), ConfigSpec("idle.conf", false), registry);
    assert registry.modules == [taker, idle];

    var handled, invoked := registry.OnUseItem(Player(1), Item(7));
    assert FirstHandler(registry.modules, UseItemAnswer(Player(1), Item(7))) == 0;
    assert handled;
    BroadcastAt(registry.modules[..1], HookCall.OnUseItem(Player(1), Item(7)));
    assert invoked == [Call(taker, HookCall.OnUseItem(Player(1), Item(7)))];
  }

  /** With the idle module first, both are asked and the second one takes over. */
  method UseItemAsksEveryoneUntilTaken()
  {
    var registry := new ModuleMgr();
    var idle := new CmangosModule("idle", DefaultOverrides(), ConfigSpec("idle.conf", false), registry);
    var taker := new CmangosModule("taker", DefaultOverrides().(onUseItem := (p: Player, i: Item) => true),
                                   ConfigSpec("taker.conf", true), registry);
    assert registry.modules == [idle, taker];

    var handled, invoked := registry.OnUseItem(Player(1), Item(7));
    assert FirstHandler(registry.modules, UseItemAnswer(Player(1), Item(7))) == 1;
    assert handled;
    BroadcastAt(registry.modules[..2], HookCall.OnUseItem(Player(1), Item(7)));
    assert invoked == [Call(idle, HookCall.OnUseItem(Player(1), Item(7))),
                       Call(taker, HookCall.OnUseItem(Player(1), Item(7)))];
  }

  /** A creature guid the player cannot interact with reaches no module, even one that would take over. */
  method GossipSelectOnUnreachableCreature()
  {
    var registry := new ModuleMgr();
    var taker := new CmangosModule("taker",
                                   DefaultOverrides().(onGossipSelectCreature := (p: Player, c: Creature, o: GossipOption) => true),
                                   ConfigSpec("taker.conf", true), registry);
    var noneInReach := Lookup((p: Player, g: ObjectGuid) => None,
                              (p: Player, g: ObjectGuid) => None,
                              (p: Player, g: ObjectGuid) => None);

    var handled, invoked := registry.OnGossipSelect(Some(Player(1)), ObjectGuid(AnyCreatureKind, 42), 1, 2, "", noneInReach);
    assert !handled && invoked == [];

    handled, invoked := registry.OnGossipSelect(None, ObjectGuid(AnyCreatureKind, 42), 1, 2, "", noneInReach);
    assert !handled && invoked == [];
  }

  /** A creature in reach is offered to the taker, which takes over. */
  method GossipSelectOnCreatureInReach()
  {
    var registry := new ModuleMgr();
    var taker := new CmangosModule("taker",
                                   DefaultOverrides().(onGossipSelectCreature := (p: Player, c: Creature, o: GossipOption) => true),
                                   ConfigSpec("taker.conf", true), registry);
    var inReach := Lookup((p: Player, g: ObjectGuid) => Some(Creature(g.counter)),
                          (p: Player, g: ObjectGuid) => None,
                          (p: Player, g: ObjectGuid) => None);

    var handled, invoked := registry.OnGossipSelect(Some(Player(1)), ObjectGuid(AnyCreatureKind, 42), 1, 2, "", inReach);
    assert FirstHandler(registry.modules, GossipSelectAnswer(Player(1), CreatureTarget(Creature(42)), GossipOption(1, 2, ""))) == 0;
    assert handled;
  }

  /** A module that writes to the action bar without taking over passes its write on to the one that takes over. */
  method LoadActionButtonsSharesTheList()
  {
    var registry := new ModuleMgr();
    var writer := new CmangosModule("writer",
                                    DefaultOverrides().(onLoadActionButtons :=
                                      (p: Player, b: ActionButtonList) => Reply(false, b[0 := ActionButton(99)])),
                                    ConfigSpec("writer.conf", true), registry);
    var taker := new CmangosModule("taker",
                                   DefaultOverrides().(onLoadActionButtons := (p: Player, b: ActionButtonList) => Reply(true, b)),
                                   ConfigSpec("taker.conf", true), registry);
    assert registry.modules == [writer, taker];

    var handled, buttons, invoked := registry.OnLoadActionButtons(Player(1), map[]);
    assert handled;
    assert buttons == map[0 := ActionButton(99)];
  }

  /** Modules are initialised one after the other, each told the world is ready right after its own initialisation. */
  method WorldInitializationInterleaves()
  {
    var registry := new ModuleMgr();
    var first := new CmangosModule("first", DefaultOverrides(), ConfigSpec("first.conf", true), registry);
    var second := new CmangosModule("second", DefaultOverrides(), ConfigSpec("second.conf", true), registry);
    assert registry.modules == [first, second];

    var invoked := registry.OnWorldInitialized();
    InitializationOrderAt(registry.modules);
    assert invoked[1] == Call(first, HookCall.OnWorldInitialized);
    assert invoked[2] == Call(second, HookCall.OnInitialize);
  }

  /** Loading a configuration twice leaves the first one alive and unreleased. */
  method ReloadKeepsOldConfig()
  {
    var registry := new ModuleMgr();
    var m := new CmangosModule("m", DefaultOverrides(), ConfigSpec("m.conf", false), registry);
    m.LoadConfig();
    var firstConfig := m.GetConfig();
    m.LoadConfig();
    assert m.GetConfig() != firstConfig;
    assert !firstConfig.released && firstConfig.loadCalls == 1;
    m.Destroy();
    assert m.GetConfig() == null;
    assert !firstConfig.released;
  }

  /** Registering a module a second time is not refused: it is then asked twice. */
  method DuplicateRegistrationIsKept()
  {
    var registry := new ModuleMgr();
    var m := new CmangosModule("m", DefaultOverrides(), ConfigSpec("m.conf", true), registry);
    registry.RegisterModule(m);
    assert registry.modules == [m, m];

    var invoked := registry.OnLogOut(Player(3));
    BroadcastAt(registry.modules, HookCall.OnLogOut(Player(3)));
    assert invoked == [Call(m, HookCall.OnLogOut(Player(3))), Call(m, HookCall.OnLogOut(Player(3)))];
  }
}
