/**
 * What the registry's dispatchers do, stated as functions of the roster.
 *
 * A dispatcher walks the roster of registered modules in registration
 * order and invokes one hook on each. There are three walks:
 *  - fan-out (`Broadcast`): every module is invoked once, in order;
 *  - first-wins (`FirstWins`): the walk stops at the first module that
 *    answers true, and the dispatcher answers whether one did;
 *  - first-wins over a value passed by reference (`RunThreaded`): as
 *    first-wins, but each module receives the value as the modules
 *    before it left it.
 * The guid-based gossip hook first resolves the guid to a typed target
 * (`ResolveGossipTarget`) and walks the roster only if that succeeds.
 *
 * The walks are generic in the module type M; the registry instantiates
 * M with its module class. A walk's invocations are recorded as a
 * sequence of `Call`s: which module was asked, with which hook and which
 * arguments.
 */
module DispatchSpec {
  import opened Entities
  import opened ModuleHooks

  /** The typed object a gossip guid resolves to. */
  datatype GossipTarget =
    | CreatureTarget(creature: Creature)
    | GameObjectTarget(gameObject: GameObject)
    | ItemTarget(item: Item)

  /** One invocation of a module hook, with its arguments. */
  datatype HookCall =
    | OnInitialize
    | OnWorldInitialized
    | OnUseItem(player: Player, item: Item)
    | OnGossipHello(player: Player, creature: Creature)
    | OnGossipSelect(player: Player, target: GossipTarget, option: GossipOption)
    | OnLearnTalent(player: Player, spellId: uint32)
    | OnResetTalents(player: Player, cost: uint32)
    | OnPreLoadFromDB(playerId: uint32)
    | OnLoadFromDB(player: Player)
    | OnSaveToDB(player: Player)
    | OnLogOut(player: Player)
    | OnCharacterCreated(player: Player)
    | OnCharacterDeleted(playerId: uint32)
    | OnLoadActionButtons(player: Player, buttons: ActionButtonList)
    | OnSaveActionButtons(player: Player, buttons: ActionButtonList)

  datatype Call<M> = Call(callee: M, hook: HookCall)

  /** The answer selected for a gossip target from the three typed overloads. */
  function SelectAnswer(o: Overrides, player: Player, target: GossipTarget, option: GossipOption): (r: bool)
    ensures NeverOverrides(o) ==> !r
  {
    match target
    case CreatureTarget(c) => o.onGossipSelectCreature(player, c, option)
    case GameObjectTarget(g) => o.onGossipSelectGameObject(player, g, option)
    case ItemTarget(i) => o.onGossipSelectItem(player, i, option)
  }

  // ---------------------------------------------------------------- fan-out

  /** The calls made when hook `h` is given to each module of `ms` in turn. */
  function Broadcast<M>(ms: seq<M>, h: HookCall): (calls: seq<Call<M>>)
    ensures |calls| == |ms|
  {
    if ms == [] then [] else Broadcast(ms[..|ms| - 1], h) + [Call(ms[|ms| - 1], h)]
  }

  /** A broadcast invokes every module exactly once, in roster order, and nothing else. */
  lemma {:induction false} BroadcastAt<M>(ms: seq<M>, h: HookCall)
    ensures |Broadcast(ms, h)| == |ms|
    ensures forall i :: 0 <= i < |ms| ==> Broadcast(ms, h)[i] == Call(ms[i], h)
  {
    if ms != [] {
      BroadcastAt(ms[..|ms| - 1], h);
    }
  }

  // ------------------------------------------------------------- first wins

  /** The position of the first module of `ms` that answers true, or |ms| if none does. */
  function FirstHandler<M>(ms: seq<M>, handles: M -> bool): (k: nat)
    ensures k <= |ms|
    ensures forall j :: 0 <= j < k ==> !handles(ms[j])
    ensures k < |ms| ==> handles(ms[k])
  {
    if ms == [] then 0
    else if handles(ms[0]) then 0
    else 1 + FirstHandler(ms[1..], handles)
  }

  /** The answer of a dispatcher and the calls it made. */
  datatype Outcome<M> = Outcome(handled: bool, invoked: seq<Call<M>>)

  /** A first-wins dispatch of hook `h`: ask in order, stop at the first module answering true. */
  function FirstWins<M>(ms: seq<M>, handles: M -> bool, h: HookCall): (o: Outcome<M>)
    ensures o.handled <==> exists i :: 0 <= i < |ms| && handles(ms[i])
  {
    var k := FirstHandler(ms, handles);
    if k < |ms| then Outcome(true, Broadcast(ms[..k + 1], h)) else Outcome(false, Broadcast(ms, h))
  }

  /**
   * A first-wins dispatch invokes a prefix of the roster, in order, each
   * position once; every module invoked but the last declined, the last
   * decides the answer, and modules after the winner are never invoked.
   * Without a winner every module is invoked.
   */
  lemma FirstWinsInvocations<M>(ms: seq<M>, handles: M -> bool, h: HookCall)
    ensures var o := FirstWins(ms, handles, h);
      && |o.invoked| <= |ms|
      && (forall j :: 0 <= j < |o.invoked| ==> o.invoked[j] == Call(ms[j], h))
      && (forall j :: 0 <= j < |o.invoked| - 1 ==> !handles(ms[j]))
      && (o.handled <==> 0 < |o.invoked| && handles(ms[|o.invoked| - 1]))
      && (!o.handled ==> |o.invoked| == |ms|)
  {
    var k := FirstHandler(ms, handles);
    if k < |ms| {
      BroadcastAt(ms[..k + 1], h);
    } else {
      BroadcastAt(ms, h);
      if 0 < |ms| {
        assert !handles(ms[|ms| - 1]);
      }
    }
  }

  /** With no module registered, a first-wins dispatch invokes nothing and answers false. */
  lemma FirstWinsOnEmptyRoster<M>(handles: M -> bool, h: HookCall)
    ensures FirstWins([], handles, h) == Outcome(false, [])
  {
  }

  /** The first handler of a roster with a module appended. */
  lemma {:induction false} FirstHandlerAppend<M>(ms: seq<M>, m: M, handles: M -> bool)
    ensures FirstHandler(ms + [m], handles) ==
      if FirstHandler(ms, handles) < |ms| then FirstHandler(ms, handles)
      else if handles(m) then |ms| else |ms| + 1
  {
    if ms != [] {
      assert (ms + [m])[0] == ms[0];
      assert (ms + [m])[1..] == ms[1..] + [m];
      FirstHandlerAppend(ms[1..], m, handles);
    }
  }

  /** Broadcasting to a roster with `m` appended asks `m` last. */
  lemma BroadcastAppend<M>(ms: seq<M>, m: M, h: HookCall)
    ensures Broadcast(ms + [m], h) == Broadcast(ms, h) + [Call(m, h)]
  {
    assert (ms + [m])[..|ms|] == ms;
  }

  /**
   * Registering another module never takes priority from the modules
   * already registered: if one of them wins, the dispatch is unchanged.
   */
  lemma RegistrationKeepsWinner<M>(ms: seq<M>, m: M, handles: M -> bool, h: HookCall)
    requires FirstWins(ms, handles, h).handled
    ensures FirstWins(ms + [m], handles, h) == FirstWins(ms, handles, h)
  {
    var k := FirstHandler(ms, handles);
    FirstHandlerAppend(ms, m, handles);
    assert (ms + [m])[..k + 1] == ms[..k + 1];
  }

  /**
   * If no registered module wins, a module registered next is invoked
   * after all of them and its answer becomes the dispatcher's.
   */
  lemma RegistrationAfterNoWinner<M>(ms: seq<M>, m: M, handles: M -> bool, h: HookCall)
    requires !FirstWins(ms, handles, h).handled
    ensures FirstWins(ms + [m], handles, h) == Outcome(handles(m), Broadcast(ms, h) + [Call(m, h)])
  {
    FirstHandlerAppend(ms, m, handles);
    BroadcastAppend(ms, m, h);
    if handles(m) {
      assert (ms + [m])[..|ms| + 1] == ms + [m];
    }
  }

  /** Removing a module that declines does not change what a first-wins dispatch answers. */
  lemma DecliningModuleIsTransparent<M>(ms: seq<M>, i: nat, handles: M -> bool, h: HookCall)
    requires i < |ms| && !handles(ms[i])
    ensures FirstWins(ms[..i] + ms[i + 1..], handles, h).handled == FirstWins(ms, handles, h).handled
  {
    var rest := ms[..i] + ms[i + 1..];
    if exists j :: 0 <= j < |ms| && handles(ms[j]) {
      var j :| 0 <= j < |ms| && handles(ms[j]);
      if j < i {
        assert rest[j] == ms[j];
      } else {
        assert rest[j - 1] == ms[j];
      }
    }
    if exists j :: 0 <= j < |rest| && handles(rest[j]) {
      var j :| 0 <= j < |rest| && handles(rest[j]);
      if j < i {
        assert rest[j] == ms[j];
      } else {
        assert rest[j] == ms[j + 1];
      }
    }
  }

  // ------------------------------------------------ first wins, by reference

  /**
   * The outcome of a first-wins dispatch over a value passed by reference:
   * the answer, the value afterwards, the calls made, and the value each
   * invoked module received.
   */
  datatype Threaded<M, S> = Threaded(handled: bool, out: S, invoked: seq<Call<M>>, seen: seq<S>)

  /**
   * Ask the modules of `ms` in turn, handing each the value as the one
   * before it left it, and stop at the first that answers true. `record`
   * gives the hook call a module receives for a given value.
   */
  function RunThreaded<M, S>(ms: seq<M>, ask: (M, S) -> Reply<S>, record: S -> HookCall, s: S): (o: Threaded<M, S>)
    ensures |o.invoked| == |o.seen| <= |ms|
    ensures !o.handled ==> |o.invoked| == |ms|
  {
    if ms == [] then Threaded(false, s, [], [])
    else
      var reply := ask(ms[0], s);
      var call := Call(ms[0], record(s));
      if reply.handled then Threaded(true, reply.out, [call], [s])
      else
        var rest := RunThreaded(ms[1..], ask, record, reply.out);
        Threaded(rest.handled, rest.out, [call] + rest.invoked, [s] + rest.seen)
  }

  /** Each call of a by-reference dispatch goes to the module at its own position, with the value that module saw. */
  lemma {:induction false} RunThreadedCalls<M, S>(ms: seq<M>, ask: (M, S) -> Reply<S>, record: S -> HookCall, s: S)
    ensures var o := RunThreaded(ms, ask, record, s);
      forall j :: 0 <= j < |o.invoked| ==> o.invoked[j] == Call(ms[j], record(o.seen[j]))
  {
    if ms != [] {
      var reply := ask(ms[0], s);
      if !reply.handled {
        var rest := RunThreaded(ms[1..], ask, record, reply.out);
        RunThreadedCalls(ms[1..], ask, record, reply.out);
        var o := RunThreaded(ms, ask, record, s);
        forall j | 0 < j < |o.invoked|
          ensures o.invoked[j] == Call(ms[j], record(o.seen[j]))
        {
          assert o.invoked[j] == rest.invoked[j - 1] && o.seen[j] == rest.seen[j - 1] && ms[j] == ms[1..][j - 1];
        }
      }
    }
  }

  /** A by-reference dispatch resumed at some module, after the calls already made. */
  function Resume<M, S>(invoked: seq<Call<M>>, seen: seq<S>, rest: Threaded<M, S>): Threaded<M, S>
  {
    Threaded(rest.handled, rest.out, invoked + rest.invoked, seen + rest.seen)
  }

  /** Asking module i of a by-reference dispatch either settles it or resumes it at module i + 1. */
  lemma RunThreadedStep<M, S>(ms: seq<M>, i: nat, ask: (M, S) -> Reply<S>, record: S -> HookCall, s: S,
                              invoked: seq<Call<M>>, seen: seq<S>)
    requires i < |ms|
    ensures var reply := ask(ms[i], s);
      var call := Call(ms[i], record(s));
      Resume(invoked, seen, RunThreaded(ms[i..], ask, record, s)) ==
        if reply.handled then Threaded(true, reply.out, invoked + [call], seen + [s])
        else Resume(invoked + [call], seen + [s], RunThreaded(ms[i + 1..], ask, record, reply.out))
  {
    assert ms[i..][0] == ms[i] && ms[i..][1..] == ms[i + 1..];
    var reply := ask(ms[i], s);
    if !reply.handled {
      var call := Call(ms[i], record(s));
      var next := RunThreaded(ms[i + 1..], ask, record, reply.out);
      assert invoked + ([call] + next.invoked) == (invoked + [call]) + next.invoked;
      assert seen + ([s] + next.seen) == (seen + [s]) + next.seen;
    }
  }

  /**
   * The hand-off of a by-reference dispatch: the first module invoked
   * receives the caller's value, and every module before the last invoked
   * declined and passed on the value it left.
   */
  lemma {:induction false} RunThreadedHandOff<M, S>(ms: seq<M>, ask: (M, S) -> Reply<S>, record: S -> HookCall, s: S)
    ensures var o := RunThreaded(ms, ask, record, s);
      && (0 < |o.seen| ==> o.seen[0] == s)
      && (forall j :: 0 <= j < |o.seen| - 1 ==>
            !ask(ms[j], o.seen[j]).handled && o.seen[j + 1] == ask(ms[j], o.seen[j]).out)
  {
    if ms != [] {
      var reply := ask(ms[0], s);
      if !reply.handled {
        var rest := RunThreaded(ms[1..], ask, record, reply.out);
        var o := RunThreaded(ms, ask, record, s);
        RunThreadedHandOff(ms[1..], ask, record, reply.out);
        assert o.seen == [s] + rest.seen;
        forall j | 0 <= j < |o.seen| - 1
          ensures !ask(ms[j], o.seen[j]).handled && o.seen[j + 1] == ask(ms[j], o.seen[j]).out
        {
          if 0 < j {
            assert o.seen[j] == rest.seen[j - 1] && ms[j] == ms[1..][j - 1];
          }
        }
      }
    }
  }

  /**
   * The last module invoked by a by-reference dispatch decides both the
   * answer and the final value; with no module registered the answer is
   * false and the value is untouched.
   */
  lemma {:induction false} RunThreadedLastDecides<M, S>(ms: seq<M>, ask: (M, S) -> Reply<S>, record: S -> HookCall, s: S)
    ensures var o := RunThreaded(ms, ask, record, s);
      && (|o.seen| == 0 ==> !o.handled && o.out == s)
      && (0 < |o.seen| ==>
            o.handled == ask(ms[|o.seen| - 1], o.seen[|o.seen| - 1]).handled &&
            o.out == ask(ms[|o.seen| - 1], o.seen[|o.seen| - 1]).out)
  {
    if ms != [] {
      var reply := ask(ms[0], s);
      if !reply.handled {
        var rest := RunThreaded(ms[1..], ask, record, reply.out);
        RunThreadedLastDecides(ms[1..], ask, record, reply.out);
        var o := RunThreaded(ms, ask, record, s);
        assert o.seen == [s] + rest.seen;
        if 0 < |rest.seen| {
          var last := |rest.seen| - 1;
          assert o.seen[last + 1] == rest.seen[last];
          assert ms[last + 1] == ms[1..][last];
        }
      }
    }
  }

  /**
   * When no module writes to the value, every module invoked by a
   * by-reference dispatch sees the caller's value, and the dispatch stops
   * where a first-wins dispatch on that value would.
   */
  lemma {:induction false} RunThreadedWithoutWritesStops<M, S>(ms: seq<M>, ask: (M, S) -> Reply<S>, record: S -> HookCall, s: S,
                                                               handles: M -> bool)
    requires forall m, x :: ask(m, x).out == x
    requires forall m :: handles(m) == ask(m, s).handled
    ensures var o := RunThreaded(ms, ask, record, s);
      var k := FirstHandler(ms, handles);
      && o.out == s
      && (forall j :: 0 <= j < |o.seen| ==> o.seen[j] == s)
      && o.handled == (k < |ms|)
      && |o.seen| == (if k < |ms| then k + 1 else |ms|)
  {
    if ms != [] {
      var reply := ask(ms[0], s);
      if !reply.handled {
        RunThreadedWithoutWritesStops(ms[1..], ask, record, s, handles);
      }
    }
  }

  /**
   * When no module writes to the value, a by-reference dispatch is the
   * plain first-wins dispatch on the caller's value, and the value comes
   * back unchanged.
   */
  lemma RunThreadedWithoutWrites<M, S>(ms: seq<M>, ask: (M, S) -> Reply<S>, record: S -> HookCall, s: S)
    requires forall m, x :: ask(m, x).out == x
    ensures var o := RunThreaded(ms, ask, record, s);
      var plain := FirstWins(ms, m => ask(m, s).handled, record(s));
      o.handled == plain.handled && o.invoked == plain.invoked && o.out == s
  {
    var handles := m => ask(m, s).handled;
    var o := RunThreaded(ms, ask, record, s);
    var k := FirstHandler(ms, handles);
    RunThreadedWithoutWritesStops(ms, ask, record, s, handles);
    RunThreadedCalls(ms, ask, record, s);
    var called := if k < |ms| then ms[..k + 1] else ms;
    BroadcastAt(called, record(s));
    assert |o.invoked| == |called|;
    forall j | 0 <= j < |o.invoked|
      ensures o.invoked[j] == Broadcast(called, record(s))[j]
    {
      assert o.seen[j] == s;
    }
  }

  /**
   * Removing a module that always declines and leaves the value alone
   * changes neither the answer nor the final value of a by-reference
   * dispatch.
   */
  lemma {:induction false} RunThreadedSkipsInertModule<M, S>(ms: seq<M>, i: nat, ask: (M, S) -> Reply<S>, record: S -> HookCall, s: S)
    requires i < |ms|
    requires forall x :: ask(ms[i], x) == Reply(false, x)
    ensures var without := RunThreaded(ms[..i] + ms[i + 1..], ask, record, s);
      var with := RunThreaded(ms, ask, record, s);
      without.handled == with.handled && without.out == with.out
  {
    var rest := ms[..i] + ms[i + 1..];
    if i == 0 {
      assert rest == ms[1..];
    } else {
      var reply := ask(ms[0], s);
      assert rest[0] == ms[0];
      assert rest[1..] == ms[1..][..i - 1] + ms[1..][i..];
      if !reply.handled {
        RunThreadedSkipsInertModule(ms[1..], i - 1, ask, record, reply.out);
      }
    }
  }

  // ------------------------------------------------------ world initialised

  /** The calls made when each module is initialised and then told the world is ready, module by module. */
  function InitializationOrder<M>(ms: seq<M>): (calls: seq<Call<M>>)
    ensures |calls| == 2 * |ms|
  {
    if ms == [] then []
    else
      var last := ms[|ms| - 1];
      InitializationOrder(ms[..|ms| - 1]) + [Call(last, OnInitialize), Call(last, OnWorldInitialized)]
  }

  /**
   * World initialisation interleaves per module: module i is initialised
   * at call 2i and told the world is ready at call 2i+1, so no module is
   * told before it was initialised, nor before every earlier module was.
   */
  lemma {:induction false} InitializationOrderAt<M>(ms: seq<M>)
    ensures |InitializationOrder(ms)| == 2 * |ms|
    ensures forall i :: 0 <= i < |ms| ==>
      InitializationOrder(ms)[2 * i] == Call(ms[i], OnInitialize) &&
      InitializationOrder(ms)[2 * i + 1] == Call(ms[i], OnWorldInitialized)
  {
    if ms != [] {
      InitializationOrderAt(ms[..|ms| - 1]);
    }
  }

  // ---------------------------------------------------------- gossip select

  /**
   * The target of a gossip selection: nothing without a player; otherwise
   * the guid's kind picks exactly one lookup (creature, then game object,
   * then item), and a failed lookup is not retried as another kind.
   */
  function ResolveGossipTarget(player: Option<Player>, guid: ObjectGuid, lookup: Lookup): (target: Option<GossipTarget>)
    ensures target.Some? <==>
      player.Some? &&
      ((guid.IsAnyTypeCreature() && lookup.npcIfCanInteractWith(player.value, guid).Some?) ||
       (guid.IsGameObject() && lookup.gameObjectIfCanInteractWith(player.value, guid).Some?) ||
       (guid.IsItem() && lookup.itemByGuid(player.value, guid).Some?))
  {
    if player.None? then None
    else if guid.IsAnyTypeCreature() then
      match lookup.npcIfCanInteractWith(player.value, guid)
      case Some(c) => Some(CreatureTarget(c))
      case None => None
    else if guid.IsGameObject() then
      match lookup.gameObjectIfCanInteractWith(player.value, guid)
      case Some(g) => Some(GameObjectTarget(g))
      case None => None
    else if guid.IsItem() then
      match lookup.itemByGuid(player.value, guid)
      case Some(i) => Some(ItemTarget(i))
      case None => None
    else None
  }

  /** The three kind tests never overlap, so the order of the checks hides no kind. */
  lemma GuidKindsAreExclusive(guid: ObjectGuid)
    ensures !(guid.IsAnyTypeCreature() && guid.IsGameObject())
    ensures !(guid.IsAnyTypeCreature() && guid.IsItem())
    ensures !(guid.IsGameObject() && guid.IsItem())
  {
  }

  /** A resolved target has the guid's kind and is the object the lookup for that kind returned. */
  lemma ResolvedTargetMatchesGuid(player: Option<Player>, guid: ObjectGuid, lookup: Lookup)
    ensures match ResolveGossipTarget(player, guid, lookup)
      case None => true
      case Some(CreatureTarget(c)) =>
        player.Some? && guid.IsAnyTypeCreature() && lookup.npcIfCanInteractWith(player.value, guid) == Some(c)
      case Some(GameObjectTarget(g)) =>
        player.Some? && guid.IsGameObject() && lookup.gameObjectIfCanInteractWith(player.value, guid) == Some(g)
      case Some(ItemTarget(i)) =>
        player.Some? && guid.IsItem() && lookup.itemByGuid(player.value, guid) == Some(i)
  {
  }

  /** Resolution consults only the lookup for the guid's kind: lookups that agree on it resolve alike. */
  lemma ResolveConsultsOnlyItsKind(player: Player, guid: ObjectGuid, l1: Lookup, l2: Lookup)
    requires guid.IsAnyTypeCreature() ==> l1.npcIfCanInteractWith(player, guid) == l2.npcIfCanInteractWith(player, guid)
    requires guid.IsGameObject() ==> l1.gameObjectIfCanInteractWith(player, guid) == l2.gameObjectIfCanInteractWith(player, guid)
    requires guid.IsItem() ==> l1.itemByGuid(player, guid) == l2.itemByGuid(player, guid)
    ensures ResolveGossipTarget(Some(player), guid, l1) == ResolveGossipTarget(Some(player), guid, l2)
  {
  }
}
