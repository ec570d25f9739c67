/**
 * The hook interface a module implements, with its default answers.
 *
 * In the server a module is an object whose virtual hook methods a
 * concrete extension overrides selectively. Here the answers of one
 * module are a table of functions, `Overrides`, and `DefaultOverrides`
 * is the table of the base class: every override hook declines, every
 * output parameter is left as the caller passed it, and no chat commands
 * are exposed. Notification hooks return nothing the registry reads, so
 * they have no column in the table; their invocations are recorded by
 * the dispatcher (see DispatchSpec).
 */
module ModuleHooks {
  import opened Entities

  /**
   * What an override hook with an output parameter gives back: whether it
   * overrides the host's default logic, and the output parameter's value
   * after the call.
   */
  datatype Reply<T> = Reply(handled: bool, out: T)

  /** The menu choice passed to a gossip selection hook. */
  datatype GossipOption = GossipOption(sender: uint32, action: uint32, code: string)

  /** A chat command a module offers: its name, its handler and the security level it requires. */
  datatype ModuleChatCommand = ModuleChatCommand(
    name: string,
    callback: (WorldSession, string) -> bool,
    securityLevel: uint32)

  /** The answers of one module to the hooks whose result someone reads. */
  datatype Overrides = Overrides(
    onUseItem: (Player, Item) -> bool,
    onPreGossipHelloGameObject: (Player, GameObject) -> bool,
    onPreGossipHelloCreature: (Player, Creature) -> bool,
    // Declared as a notification in the base class; the registry reads it as an override.
    onGossipHello: (Player, Creature) -> bool,
    onGossipSelectGameObject: (Player, GameObject, GossipOption) -> bool,
    onGossipSelectCreature: (Player, Creature, GossipOption) -> bool,
    onGossipSelectItem: (Player, Item, GossipOption) -> bool,
    onLoadActionButtons: (Player, ActionButtonList) -> Reply<ActionButtonList>,
    onSaveActionButtons: (Player, ActionButtonList) -> Reply<ActionButtonList>,
    onPreHandleFall: (Player, MovementInfo, uint32) -> Reply<uint32>,
    onPreResurrect: Player -> bool,
    onPreRewardPlayerAtKill: (Player, Unit) -> bool,
    onHandlePageTextQuery: (Player, WorldPacket) -> bool,
    onRespawn: (Creature, int) -> Reply<int>,
    onUse: (GameObject, Unit) -> bool,
    onFillLoot: (Loot, Player) -> bool,
    onGenerateMoneyLoot: (Loot, uint32) -> Reply<uint32>,
    isModuleDumpTable: string -> bool,
    chatCommandPrefix: Option<string>,
    commandTable: Option<seq<ModuleChatCommand>>)

  /** The base-class answers, used by every hook a module does not override. */
  function DefaultOverrides(): Overrides
  {
    Overrides(
      (player, item) => false,
      (player, gameObject) => false,
      (player, creature) => false,
      (player, creature) => false,
      (player, gameObject, option) => false,
      (player, creature, option) => false,
      (player, item, option) => false,
      (player, buttons) => Reply(false, buttons),
      (player, buttons) => Reply(false, buttons),
      (player, movement, outDamage) => Reply(false, outDamage),
      player => false,
      (player, victim) => false,
      (player, packet) => false,
      (creature, respawnTime) => Reply(false, respawnTime),
      (gameObject, user) => false,
      (loot, owner) => false,
      (loot, outMoney) => Reply(false, outMoney),
      tableName => false,
      None,
      None)
  }

  /** A module none of whose override hooks ever takes over from the host. */
  ghost predicate NeverOverrides(o: Overrides)
  {
    && (forall p, i :: !o.onUseItem(p, i))
    && (forall p, g :: !o.onPreGossipHelloGameObject(p, g))
    && (forall p, c :: !o.onPreGossipHelloCreature(p, c))
    && (forall p, c :: !o.onGossipHello(p, c))
    && (forall p, g, opt :: !o.onGossipSelectGameObject(p, g, opt))
    && (forall p, c, opt :: !o.onGossipSelectCreature(p, c, opt))
    && (forall p, i, opt :: !o.onGossipSelectItem(p, i, opt))
    && (forall p, b :: !o.onLoadActionButtons(p, b).handled)
    && (forall p, b :: !o.onSaveActionButtons(p, b).handled)
    && (forall p, m, d :: !o.onPreHandleFall(p, m, d).handled)
    && (forall p :: !o.onPreResurrect(p))
    && (forall p, v :: !o.onPreRewardPlayerAtKill(p, v))
    && (forall p, w :: !o.onHandlePageTextQuery(p, w))
    && (forall c, t :: !o.onRespawn(c, t).handled)
    && (forall g, u :: !o.onUse(g, u))
    && (forall l, p :: !o.onFillLoot(l, p))
    && (forall l, m :: !o.onGenerateMoneyLoot(l, m).handled)
  }

  /** A module whose hooks never write to the output parameters they are given. */
  ghost predicate LeavesOutputsAlone(o: Overrides)
  {
    && (forall p, b :: o.onLoadActionButtons(p, b).out == b)
    && (forall p, b :: o.onSaveActionButtons(p, b).out == b)
    && (forall p, m, d :: o.onPreHandleFall(p, m, d).out == d)
    && (forall c, t :: o.onRespawn(c, t).out == t)
    && (forall l, m :: o.onGenerateMoneyLoot(l, m).out == m)
  }

  /** The base class never overrides host logic. */
  lemma DefaultOverridesNeverOverride()
    ensures NeverOverrides(DefaultOverrides())
  {
  }

  /** The base class leaves fall damage, respawn time, loot money and action buttons unwritten. */
  lemma DefaultOverridesLeaveOutputsAlone()
    ensures LeavesOutputsAlone(DefaultOverrides())
  {
  }

  /** The base class exposes no chat commands and claims no dump table. */
  lemma DefaultOverridesClaimNothing()
    ensures DefaultOverrides().chatCommandPrefix.None?
    ensures DefaultOverrides().commandTable.None?
    ensures forall name :: !DefaultOverrides().isModuleDumpTable(name)
  {
  }
}
