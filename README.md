# cmangos module registry: a Dafny model

This project models the extension mechanism of the cmangos game server. The
module registry (`ModuleMgr`) keeps an ordered roster of registered modules
and has one dispatcher per hook. Each dispatcher walks the roster in one of
three ways:

- **Fan-out.** A notification hook is given to every module once, in
  registration order.
- **First wins.** An override hook asks the modules in order and stops at the
  first one that answers true. The dispatcher then answers true; if no module
  does, it answers false.
- **Guid-resolved first wins.** `OnGossipSelect` first turns a guid into a
  creature, a game object or an item that the player can interact with. Only
  if that succeeds does it run a first-wins walk over the matching hook
  overload.

A module (`CmangosModule`) registers itself when it is constructed. It owns a
configuration that may be absent, and it is initialised by the registry when
the world has loaded.

Files:

- `entities.dfy` (`Entities`). The host values the registry only passes on:
  players, creatures, items and so on, as opaque handles. Also the guid
  classification and the player's lookups, given as oracles.
- `module_hooks.dfy` (`ModuleHooks`). The base-class hook interface and its
  defaults.
  - A module's answers to the hooks that someone reads are a table of
    functions (`Overrides`). `DefaultOverrides` is the base class's table.
  - The chat command record is `ModuleChatCommand`.
- `dispatch_spec.dfy` (`DispatchSpec`). The walks as functions of the roster,
  with the lemmas about them:
  - `Broadcast` for fan-out;
  - `FirstHandler` and `FirstWins` for first wins;
  - `RunThreaded` for first wins over a value passed by reference;
  - `InitializationOrder` for world initialisation;
  - `ResolveGossipTarget` for guid resolution.
- `registry.dfy` (`Registry`). The classes `ModuleMgr`, `CmangosModule` and
  `ModuleConfig`.
  - Each dispatcher is a loop over the roster.
  - Each dispatcher returns the calls it made as a ghost trace `invoked`. Its
    `ensures` ties its answer and that trace to the walk in `DispatchSpec`.
- `scenarios.dfy` (`Scenarios`). Small rosters driven through the
  dispatchers, with their expected outcomes asserted.

Where the registry's implementation and the headers disagree, the model
follows `src/ModuleMgr.cpp`:

- `OnGossipHello` is a first-wins dispatcher returning bool (ModuleMgr.cpp:40).
  `src/Module.h:104` and `src/ModuleMgr.h:77` declare it void.
- `OnGossipSelect` takes no `gossipListId` (ModuleMgr.cpp:53), although
  `src/ModuleMgr.h:78` declares one.
- `OnPreLoadFromDB` takes a player id (ModuleMgr.cpp:120), although
  `src/ModuleMgr.h:87` declares a `Player*`.
- `OnCharacterDeleted` is dispatched (ModuleMgr.cpp:160-166), although the
  module base class in `src/Module.h` declares no such hook.

## Model

| member | source | states |
|---|---|---|
| Registry.ModuleMgr.constructor | src/ModuleMgr.h:53 | A new registry has an empty roster. |
| Registry.ModuleMgr.Destroy | src/ModuleMgr.cpp:8-11 | The destructor empties the roster. It modifies only the roster field, so the modules themselves are left intact. |
| Registry.ModuleMgr.RegisterModule | src/ModuleMgr.cpp:13-16 | The module is appended at the end. The earlier entries keep their order, and a module already present is not refused. |
| Registry.ModuleMgr.OnWorldInitialized | src/ModuleMgr.cpp:18-25 | The calls made are `InitializationOrder(modules)`: per module, Initialize and then OnWorldInitialized, in roster order. |
| DispatchSpec.InitializationOrder | src/ModuleMgr.cpp:18-25 | The calls of world initialisation: exactly two calls per registered module. |
| DispatchSpec.InitializationOrderAt | src/ModuleMgr.cpp:18-25 | There are two calls per module. Module i gets OnInitialize at call 2i and OnWorldInitialized at call 2i+1, so initialisation is interleaved per module. |
| Registry.ModuleMgr.AskInOrder | src/ModuleMgr.cpp:29-37 | The first-wins loop: the answer and the calls made are exactly `FirstWins(modules, …)`. |
| Registry.ModuleMgr.OnUseItem | src/ModuleMgr.cpp:27-38 | First wins over OnUseItem. It answers true iff some registered module's OnUseItem answers true, and the calls made are `FirstWins`'s. |
| Registry.ModuleMgr.OnGossipHello | src/ModuleMgr.cpp:40-51 | First wins over OnGossipHello, read as a bool answer. It answers true iff some module answers true. |
| Registry.ModuleMgr.OnGossipSelect | src/ModuleMgr.cpp:53-102 | If the guid does not resolve (no player, a failed lookup, or a guid of another kind), no module is called and the answer is false. Otherwise it is first wins over the overload for the resolved target. It answers true iff there is a player, the guid resolves, and some module answers true for that target. |
| DispatchSpec.ResolveGossipTarget | src/ModuleMgr.cpp:55-99 | The guid gate. Resolution succeeds iff there is a player and the lookup for the guid's own kind (creature, then game object, then item) returns an object. |
| DispatchSpec.SelectAnswer | src/ModuleMgr.cpp:62-96 | The typed overload asked for the resolved target. A module that never overrides answers false for every target. |
| DispatchSpec.ResolvedTargetMatchesGuid | src/ModuleMgr.cpp:57-98 | A resolved target has the guid's kind and is the object that this kind's lookup returned. |
| DispatchSpec.ResolveConsultsOnlyItsKind | src/ModuleMgr.cpp:57-98 | Only the lookup for the guid's kind is consulted. A failed lookup is never retried as another kind. |
| DispatchSpec.GuidKindsAreExclusive | src/ModuleMgr.cpp:57-85 | The creature, game object and item tests never hold together. This holds by the model's encoding: the guid carries a single kind, as the host's guid carries a single high-guid type. So the order of the else-if chain hides no case. |
| Registry.ModuleMgr.NotifyAll | src/ModuleMgr.cpp:104-166 | The fan-out loop: the calls made are `Broadcast(modules, h)`. |
| Registry.ModuleMgr.OnLearnTalent | src/ModuleMgr.cpp:104-110 | The calls made are the broadcast of OnLearnTalent to the roster. |
| Registry.ModuleMgr.OnResetTalents | src/ModuleMgr.cpp:112-118 | The calls made are the broadcast of OnResetTalents to the roster. |
| Registry.ModuleMgr.OnPreLoadFromDB | src/ModuleMgr.cpp:120-126 | The calls made are the broadcast of OnPreLoadFromDB(playerId) to the roster. |
| Registry.ModuleMgr.OnLoadFromDB | src/ModuleMgr.cpp:128-134 | The calls made are the broadcast of OnLoadFromDB to the roster. |
| Registry.ModuleMgr.OnSaveToDB | src/ModuleMgr.cpp:136-142 | The calls made are the broadcast of OnSaveToDB to the roster. |
| Registry.ModuleMgr.OnLogOut | src/ModuleMgr.cpp:144-150 | The calls made are the broadcast of OnLogOut to the roster. |
| Registry.ModuleMgr.OnCharacterCreated | src/ModuleMgr.cpp:152-158 | The calls made are the broadcast of OnCharacterCreated to the roster. |
| Registry.ModuleMgr.OnCharacterDeleted | src/ModuleMgr.cpp:160-166 | The calls made are the broadcast of OnCharacterDeleted(playerId) to the roster. |
| DispatchSpec.Broadcast | src/ModuleMgr.cpp:104-166 | The calls of a fan-out walk: exactly one call per registered module. |
| DispatchSpec.BroadcastAt | src/ModuleMgr.cpp:104-166 | A broadcast makes as many calls as there are modules, and the i-th call goes to module i. So every module is called exactly once, in roster order, with no early exit. |
| DispatchSpec.BroadcastAppend | src/ModuleMgr.cpp:13-16 | After a module is registered, a broadcast calls it last, after every earlier module. |
| DispatchSpec.FirstHandler | src/ModuleMgr.cpp:29-37 | The index where the loop stops. Every module before it declines, and the module at it accepts (if any module does). |
| DispatchSpec.FirstWins | src/ModuleMgr.cpp:29-37 | The answer and the calls of a first-wins walk. The answer is true iff some registered module answers true. |
| DispatchSpec.FirstWinsInvocations | src/ModuleMgr.cpp:29-37 | A first-wins dispatch calls a prefix of the roster, in order. Every called module but the last declined, and the last decides the answer. Modules after the winner are never called; with no winner all are called. |
| DispatchSpec.FirstWinsOnEmptyRoster | src/ModuleMgr.cpp:37 | With no modules, nothing is called and the answer is false. |
| DispatchSpec.FirstHandlerAppend | src/ModuleMgr.cpp:13-16 | Registering a module moves the stopping index only when no earlier module accepts. |
| DispatchSpec.RegistrationKeepsWinner | src/ModuleMgr.cpp:13-38 | If a registered module already wins, a newly registered module changes neither the answer nor the calls made. |
| DispatchSpec.RegistrationAfterNoWinner | src/ModuleMgr.cpp:13-38 | If no registered module wins, a newly registered module is asked after all the others, and its answer becomes the dispatcher's. |
| DispatchSpec.DecliningModuleIsTransparent | src/ModuleMgr.cpp:29-37 | Removing a module that declines does not change a first-wins answer. |
| Registry.ModuleMgr.AskInOrderByReference | src/ModuleMgr.cpp:168-192 | The by-reference first-wins loop: the answer, the list afterwards and the calls made are exactly `RunThreaded`'s. |
| Registry.ModuleMgr.OnLoadActionButtons | src/ModuleMgr.cpp:168-179 | First wins over OnLoadActionButtons, with one action-button list that every called module sees and may change. |
| Registry.ModuleMgr.OnSaveActionButtons | src/ModuleMgr.cpp:181-192 | First wins over OnSaveActionButtons, with the same shared list. |
| DispatchSpec.RunThreaded | src/ModuleMgr.cpp:168-192 | At most one call per module, with one list seen per call. Without a winner, every module is called. |
| DispatchSpec.RunThreadedCalls | src/ModuleMgr.cpp:170-176 | Call j goes to module j, in roster order, with the list as it was when that module was reached. |
| DispatchSpec.RunThreadedStep | src/ModuleMgr.cpp:170-176 | One turn of the loop: the module either settles the dispatch, or passes its list on to the next module. |
| DispatchSpec.RunThreadedHandOff | src/ModuleMgr.cpp:170-176 | The first module called gets the caller's list. Every module before the winner declined, and the next module got the list that module left. |
| DispatchSpec.RunThreadedLastDecides | src/ModuleMgr.cpp:168-192 | The last module called decides the answer and the final list. With an empty roster the answer is false and the list is unchanged. |
| DispatchSpec.RunThreadedWithoutWritesStops | src/ModuleMgr.cpp:168-192 | When no module writes to the list, every called module sees the caller's list. The dispatch stops where plain first wins would: after the first module that accepts. |
| DispatchSpec.RunThreadedWithoutWrites | src/ModuleMgr.cpp:168-192 | When no module writes to the list, the dispatch is plain first wins on the caller's list, and the list comes back unchanged. |
| DispatchSpec.RunThreadedSkipsInertModule | src/ModuleMgr.cpp:168-192 | Removing a module that always declines and never writes changes neither the answer nor the final list. |
| ModuleHooks.DefaultOverridesNeverOverride | src/Module.h:78-247 | Every base-class override hook answers false for every argument. This covers OnUseItem, OnPreGossipHello, OnGossipSelect, the action-button hooks, OnPreHandleFall, OnPreResurrect, OnPreRewardPlayerAtKill, OnHandlePageTextQuery, OnRespawn, OnUse, OnFillLoot and OnGenerateMoneyLoot. |
| ModuleHooks.DefaultOverridesLeaveOutputsAlone | src/Module.h:139-247 | The base-class hooks with output parameters leave them as given: the action-button list, outDamage, respawnTime and outMoney. |
| ModuleHooks.DefaultOverridesClaimNothing | src/Module.h:282-288 | By default there is no chat command prefix and no command table, and IsModuleDumpTable is false for every table name. |
| Registry.DefaultModuleChangesNoDispatch | src/Module.h:78-110 | A module that keeps the base-class answers can be removed from the roster without changing the answer of OnUseItem, OnGossipHello or OnGossipSelect. |
| Registry.DefaultModuleLeavesButtonsAlone | src/Module.h:139-141 | A module that keeps the base-class action-button hooks can be removed without changing the answer or the final list of OnLoadActionButtons or OnSaveActionButtons. |
| Registry.CmangosModule.constructor | src/CmangosModule.cpp:5-10 | The new module stores the given name and has no config. It is registered exactly once, appended at the end of the roster. |
| Registry.CmangosModule.LoadConfig | src/CmangosModule.cpp:18-22 | Afterwards there is a fresh config for the module's file, loaded once. This holds whether or not the load succeeded. A previous config is neither released nor changed. |
| Registry.CmangosModule.Initialize | src/CmangosModule.cpp:24-28 | OnInitialize is invoked exactly once. |
| Registry.CmangosModule.Destroy | src/CmangosModule.cpp:12-16 | The config, if there is one, is released, and the field is left null. Its load count is not changed. |
| Registry.CmangosModule.GetConfig | src/Module.h:291 | Returns the stored config as it is, null until LoadConfig. It reads the module and changes nothing. |
| Registry.ModuleConfig.constructor | src/CmangosModule.cpp:20 | What `CreateConfig()` yields: a config for the module's file, not yet loaded and not released. |
| Registry.ModuleConfig.Release | src/CmangosModule.cpp:14 | `delete config`: the config is marked released. |
| Registry.ModuleConfig.Load | src/CmangosModule.cpp:21 | The result is whether the configuration loads, and the load is counted. |

## Left out

- Configuration loading is left out. The config file reader and the module's own parsing of it (`src/ModuleConfig.cpp`, `src/CmangosModuleConfig.cpp` and their headers) are not part of this model. A configuration is reduced to its file name and a given load result, which `LoadConfig` ignores. `CreateConfig` is assumed to return a configuration, never null.
- Logging is left out: the initialisation message is output only.
- `src/Module.cpp` is not part of this model. It is an older copy of the module base class and does not compile.
- The process-wide registry singleton is replaced by an explicit registry that is passed to the module constructor.
- Hooks with floating-point inputs or outputs are left out (the dodge, block, parry, crit and miss chances, and attack distance). `OnPreHandleFall` is kept without its `lastFallZ` argument.
- Some dispatchers are declared in `src/ModuleMgr.h` but have no body in `src/ModuleMgr.cpp`: `OnExecuteCommand`, `OnWorldUpdated`, `OnPreGossipHello` and the loot, battleground, mail and auction dispatchers. They are not modelled, because their walk is not given.
- Game entities are opaque handles. Guid classification and the player's lookups are oracle functions.
- Hooks are modelled as functions of their arguments. A module's own state, and any change a hook makes to a game entity, are not modelled. The exception is the action-button list, which is passed by reference and is threaded through the modules.
- Notification hooks (the default empty bodies in `src/Module.h`) have no column in `Overrides`, because the registry reads nothing from them. Only the fact that they are invoked is recorded, in the dispatchers' ghost trace.
- Registry.ModuleMgr.OnLearnTalent and the other fan-out dispatchers (and NotifyAll): their contract states only the ghost trace of calls, because the source's fan-out returns nothing.
- Registry.ModuleMgr.OnLoadActionButtons, Registry.ModuleMgr.OnSaveActionButtons: the overload taking two action-button lists (`src/ModuleMgr.h:98`, `:100`) has no body in the source and is left out.
- Registry.CmangosModule.Destroy: deleting the config is modelled as marking it released; memory reclamation is not modelled.
- A hook that throws is not modelled. No dispatch loop in `src/ModuleMgr.cpp` catches exceptions, so an exception would end the walk and later modules would not be called. The `Overrides` functions always return.
- Registry.ModuleMgr.RegisterModule: its parameter is a non-null module. `src/ModuleMgr.cpp:15` also accepts a null `Module*`, which a later dispatch would dereference; that case is not represented.
- Registry.CmangosModule.Destroy: the source never removes a destroyed module from the roster (`src/CmangosModule.cpp:12-16`), which leaves a dangling pointer there. In the model the object stays usable, so dispatching to a destroyed module is not shown to be an error.
