/**
 * Host-side values that the module system only passes through.
 *
 * The game server's players, creatures, game objects, items, units, loot
 * and packets are opaque to the registry: it hands them to the modules
 * without looking inside. They are modelled here as plain handles. The
 * only host behaviour the registry depends on is how an object guid is
 * classified and how a player looks an object up by guid; both are given
 * as oracles.
 */
module Entities {

  newtype uint8 = x: int | 0 <= x < 0x100
  newtype uint32 = x: int | 0 <= x < 0x1_0000_0000

  datatype Option<+T> = None | Some(value: T)

  datatype Player = Player(id: uint32)
  datatype Creature = Creature(id: uint32)
  datatype GameObject = GameObject(id: uint32)
  datatype Item = Item(id: uint32)
  datatype Unit = Unit(id: uint32)
  datatype Loot = Loot(id: uint32)
  datatype WorldPacket = WorldPacket(opcode: uint32)
  datatype MovementInfo = MovementInfo(time: uint32)
  datatype WorldSession = WorldSession(accountId: uint32)

  /** One entry of a character's action bar; its packed contents are the host's business. */
  datatype ActionButton = ActionButton(packedData: uint32)

  /** A character's action bar: button slot to button. */
  type ActionButtonList = map<uint8, ActionButton>

  /** The host's classification of a guid, as far as the registry tests it. */
  datatype GuidKind = AnyCreatureKind | GameObjectKind | ItemKind | OtherKind

  datatype ObjectGuid = ObjectGuid(kind: GuidKind, counter: uint32)
  {
    /** Creature, pet or vehicle. */
    predicate IsAnyTypeCreature() { kind == AnyCreatureKind }
    predicate IsGameObject() { kind == GameObjectKind }
    predicate IsItem() { kind == ItemKind }
  }

  /**
   * The player-side lookups the registry resolves a guid through. Each
   * yields None where the host would return null (no such
   * object, or the player cannot interact with it). The creature lookup
   * stands for the call made with the "no npc flag" requirement.
   */
  datatype Lookup = Lookup(
    npcIfCanInteractWith: (Player, ObjectGuid) -> Option<Creature>,
    gameObjectIfCanInteractWith: (Player, ObjectGuid) -> Option<GameObject>,
    itemByGuid: (Player, ObjectGuid) -> Option<Item>)
}
