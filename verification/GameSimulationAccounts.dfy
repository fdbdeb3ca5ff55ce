// What a tick's passes do to each bullet and each player, in closed form: who was hit by what, who is left, and when the dead return.

module GameSimulationAccounts {
  import opened GameIds
  import opened WorldCollision
  import opened StatePool
  import opened GameWorld
  import opened Arena
  import opened GameSimulation
  import opened Wrappers

  datatype Ending = FliesOn | Expires | StrikesSurroundings | StrikesPlayer(victim: PlayerSimulationContext)

  /** One bullet's turn: as it was before the pass, the players it met, and how it ended. */
  datatype Turn = Turn(bullet: BulletState, players: PlayerTable, ending: Ending)

  /** A living, vulnerable player of the bullet's room, other than its owner, that the bullet touches. */
  predicate IsTarget(c: PlayerSimulationContext, b: BulletState, players: PlayerTable, arena: Arena) {
    && c.roomId == b.roomId && c.playerId != b.ownerPlayerId
    && c.playerId in players
    && var p := players[c.playerId]; !p.isDead && p.invincibilityRemainingSeconds <= 0.0 && arena.hitsPlayer(b, p)
  }

  /** A bullet out of life expires; else one that touches the surroundings stops there; else it strikes the first player it can
      hit; and if there is none it flies on. */
  ghost predicate EndsAs(ending: Ending, b: BulletState, players: PlayerTable, contexts: seq<PlayerSimulationContext>, arena: Arena) {
    match ending
    case Expires => b.remainingLifeSeconds <= 0.0
    case StrikesSurroundings => b.remainingLifeSeconds > 0.0 && arena.hitsSurroundings(b)
    case StrikesPlayer(victim) =>
      && b.remainingLifeSeconds > 0.0 && !arena.hitsSurroundings(b)
      && exists k :: 0 <= k < |contexts| && contexts[k] == victim && IsTarget(victim, b, players, arena)
                     && forall j :: 0 <= j < k ==> !IsTarget(contexts[j], b, players, arena)
    case FliesOn =>
      && b.remainingLifeSeconds > 0.0 && !arena.hitsSurroundings(b)
      && forall j :: 0 <= j < |contexts| ==> !IsTarget(contexts[j], b, players, arena)
  }

  function EndingOf(b: BulletState, players: PlayerTable, contexts: seq<PlayerSimulationContext>, arena: Arena): (ending: Ending)
    ensures EndsAs(ending, b, players, contexts, arena)
    ensures ending.StrikesPlayer? ==> CanHit(arena, b, ending.victim, players)
  {
    if b.remainingLifeSeconds <= 0.0 then Expires
    else if arena.hitsSurroundings(b) then StrikesSurroundings
    else
      var k := FirstHit(arena, b, contexts, players, 0);
      if k == |contexts| then FliesOn else StrikesPlayer(contexts[k])
  }

  /** The turns of the pass from `index` on. */
  function TurnsOf(
      w: World, index: nat, contexts: seq<PlayerSimulationContext>, dt: real, rules: GameRuleConfig, arena: Arena): seq<Turn>
    requires index <= |w.bullets|
    decreases |w.bullets| - index
  {
    if index == |w.bullets| then []
    else
      var f := BulletStep(w, index, contexts, dt, rules, arena);
      [TurnOf(w, index, contexts, dt, arena)] + TurnsOf(f.world, NextIndex(index, f), contexts, dt, rules, arena)
  }

  function TurnOf(w: World, index: nat, contexts: seq<PlayerSimulationContext>, dt: real, arena: Arena): Turn
    requires index < |w.bullets|
  {
    Turn(w.bullets[index], w.players, EndingOf(BulletMoved(w.bullets[index], dt), w.players, contexts, arena))
  }

  // What the turns leave.

  function Survivors(turns: seq<Turn>, dt: real): seq<BulletState> {
    if turns == [] then []
    else (if turns[0].ending.FliesOn? then [BulletMoved(turns[0].bullet, dt)] else []) + Survivors(turns[1..], dt)
  }

  function EffectsLeft(turns: seq<Turn>, dt: real, arena: Arena): seq<ImpactEffectState> {
    if turns == [] then []
    else
      var b, moved := turns[0].bullet, BulletMoved(turns[0].bullet, dt);
      (match turns[0].ending
       case StrikesSurroundings => [ImpactEffectState(b.roomId, Impact, arena.impact(b.position, moved))]
       case StrikesPlayer(_) => [ImpactEffectState(b.roomId, Impact, moved.position)]
       case _ => [])
      + EffectsLeft(turns[1..], dt, arena)
  }

  /** The turn strikes a player down: its damage is all the player has left. */
  predicate IsLethal(t: Turn) {
    t.ending.StrikesPlayer? && t.ending.victim.playerId in t.players && t.bullet.damage >= t.players[t.ending.victim.playerId].hp
  }

  function KillsMade(turns: seq<Turn>): seq<KillEvent> {
    if turns == [] then []
    else
      var b := turns[0].bullet;
      (if IsLethal(turns[0])
       then var v := turns[0].ending.victim; [KillEvent(b.ownerPlayerId, b.ownerPersistentPlayerId, v.playerId, v.persistentPlayerId, b.roomId)]
       else [])
      + KillsMade(turns[1..])
  }

  predicate IsOn(t: Turn, id: PlayerId) {
    t.ending.StrikesPlayer? && t.ending.victim.playerId == id
  }

  function HitsOn(turns: seq<Turn>, id: PlayerId): nat {
    if turns == [] then 0 else (if IsOn(turns[0], id) then 1 else 0) + HitsOn(turns[1..], id)
  }

  function DamageTo(turns: seq<Turn>, id: PlayerId): int {
    if turns == [] then 0 else (if IsOn(turns[0], id) then turns[0].bullet.damage else 0) + DamageTo(turns[1..], id)
  }

  /** A player after all the hits of a pass: unhurt, or hurt by all their damage, or dead because the damage reached its hit points;
      and credited with its own kills. */
  function AfterHits(p: PlayerState, hits: nat, damage: int, kills: nat, rules: GameRuleConfig): PlayerState {
    var credited := p.(killCount := p.killCount + kills);
    if hits == 0 then credited
    else if damage < p.hp then credited.(hp := p.hp - damage, hitFlashRemainingSeconds := rules.hitFlashDurationSeconds)
    else credited.(hp := 0, isDead := true, deathCount := p.deathCount + 1, hitFlashRemainingSeconds := rules.hitFlashDurationSeconds,
                   respawnRemainingSeconds := rules.respawnDelaySeconds, invincibilityRemainingSeconds := 0.0, inputFlags := NO_INPUT)
  }

  lemma HitsCompose(p: PlayerState, hits: nat, damage: int, kills: nat, hits': nat, damage': int, kills': nat, rules: GameRuleConfig)
    requires IsSound(p) && (hits == 0 ==> damage == 0) && (hits' == 0 ==> damage' == 0) && (p.isDead ==> hits == 0)
    requires AfterHits(p, hits, damage, kills, rules).isDead ==> hits' == 0
    ensures AfterHits(AfterHits(p, hits, damage, kills, rules), hits', damage', kills', rules)
         == AfterHits(p, hits + hits', damage + damage', kills + kills', rules)
  {
  }

  lemma {:induction false} NoHitsNoDamage(turns: seq<Turn>, id: PlayerId)
    ensures HitsOn(turns, id) == 0 ==> DamageTo(turns, id) == 0
  {
    if turns != [] {
      NoHitsNoDamage(turns[1..], id);
    }
  }

  // One turn.

  lemma TurnLeaves(w: World, index: nat, contexts: seq<PlayerSimulationContext>, dt: real, rules: GameRuleConfig, arena: Arena)
    requires index < |w.bullets|
    ensures var f, turn := BulletStep(w, index, contexts, dt, rules, arena), TurnOf(w, index, contexts, dt, arena);
            && (f.isErased <==> !turn.ending.FliesOn?)
            && f.world.effects == w.effects + EffectsLeft([turn], dt, arena)
            && f.kills == KillsMade([turn])
  {
    assert [TurnOf(w, index, contexts, dt, arena)][1..] == [];
  }

  lemma CanHitTheLiving(arena: Arena, b: BulletState, context: PlayerSimulationContext, players: PlayerTable)
    requires CanHit(arena, b, context, players)
    ensures context.playerId in players && !players[context.playerId].isDead && players[context.playerId].invincibilityRemainingSeconds <= 0.0
  {
  }

  lemma HitLeavesPlayer(w: World, b: BulletState, context: PlayerSimulationContext, rules: GameRuleConfig, arena: Arena, id: PlayerId)
    requires AreSound(w.players) && CanHit(arena, b, context, w.players) && id in w.players
    ensures var (w', kills) := HitPlayer(w, b, context, rules);
            && id in w'.players
            && w'.players[id] == AfterHits(w.players[id], if context.playerId == id then 1 else 0, if context.playerId == id then b.damage else 0,
                                           KillsBy(kills, id), rules)
  {
    CountsOfOne(KillOf(b, context), id);
  }

  lemma TurnLeavesPlayer(
      w: World, index: nat, contexts: seq<PlayerSimulationContext>, dt: real, rules: GameRuleConfig, arena: Arena, id: PlayerId)
    requires index < |w.bullets| && AreSound(w.players) && id in w.players
    ensures var f, turn := BulletStep(w, index, contexts, dt, rules, arena), TurnOf(w, index, contexts, dt, arena);
            && id in f.world.players
            && f.world.players[id] == AfterHits(w.players[id], if IsOn(turn, id) then 1 else 0, if IsOn(turn, id) then turn.bullet.damage else 0,
                                                KillsBy(f.kills, id), rules)
            && (w.players[id].isDead || w.players[id].invincibilityRemainingSeconds > 0.0 ==> !IsOn(turn, id))
  {
    hide AfterHits, HitPlayer, CanHit;
    NothingHappened(w.players[id], rules);
    var moved := BulletMoved(w.bullets[index], dt);
    var k := FirstHit(arena, moved, contexts, w.players, 0);
    if k < |contexts| {
      CanHitTheLiving(arena, moved, contexts[k], w.players);
      HitLeavesPlayer(w.(bullets := w.bullets[index := moved]), moved, contexts[k], rules, arena, id);
    }
  }

  // The whole pass.

  /** For every player, the closed form: over the pass each player has taken exactly the damage of the bullets that struck it. A player
      that nothing struck keeps its hit points; a living one dies exactly if what struck it reaches its hit points; nothing strikes the dead
      or the invincible. */
  lemma {:induction false} PassLeavesPlayer(
      w: World, index: nat, contexts: seq<PlayerSimulationContext>, dt: real, rules: GameRuleConfig, arena: Arena, id: PlayerId)
    requires index <= |w.bullets| && AreSound(w.players) && id in w.players
    ensures var (w', kills) := BulletsUpdated(w, index, contexts, dt, rules, arena);
            var turns := TurnsOf(w, index, contexts, dt, rules, arena);
            && id in w'.players
            && w'.players[id] == AfterHits(w.players[id], HitsOn(turns, id), DamageTo(turns, id), KillsBy(kills, id), rules)
            && (w.players[id].isDead || w.players[id].invincibilityRemainingSeconds > 0.0 ==> HitsOn(turns, id) == 0)
    decreases |w.bullets| - index
  {
    hide BulletStep, AfterHits, TurnOf, IsOn;
    if index == |w.bullets| {
      NothingHappened(w.players[id], rules);
    } else {
      var f, turn := BulletStep(w, index, contexts, dt, rules, arena), TurnOf(w, index, contexts, dt, arena);
      var next := NextIndex(index, f);
      StepIsAccountedFor(w, index, contexts, dt, rules, arena);
      TurnLeavesPlayer(w, index, contexts, dt, rules, arena, id);
      PassLeavesPlayer(f.world, next, contexts, dt, rules, arena, id);
      var later, kills := TurnsOf(f.world, next, contexts, dt, rules, arena), BulletsUpdated(f.world, next, contexts, dt, rules, arena).1;
      NoHitsNoDamage(later, id);
      UnhurtStaysAsItIs(w.players[id], KillsBy(f.kills, id), rules);
      CountsAdd(f.kills, kills, id);
      HitsCompose(w.players[id], if IsOn(turn, id) then 1 else 0, if IsOn(turn, id) then turn.bullet.damage else 0, KillsBy(f.kills, id),
                  HitsOn(later, id), DamageTo(later, id), KillsBy(kills, id), rules);
      assert ([turn] + later)[1..] == later;
    }
  }

  lemma UnhurtStaysAsItIs(p: PlayerState, kills: nat, rules: GameRuleConfig)
    ensures AfterHits(p, 0, 0, kills, rules) == p.(killCount := p.killCount + kills)
  {
  }

  lemma NothingHappened(p: PlayerState, rules: GameRuleConfig)
    ensures AfterHits(p, 0, 0, 0, rules) == p
  {
  }

  /** Each bullet of the pass has one turn, and its ending is what it met at that turn. */
  lemma {:induction false} EveryBulletHasItsTurn(
      w: World, index: nat, contexts: seq<PlayerSimulationContext>, dt: real, rules: GameRuleConfig, arena: Arena)
    requires index <= |w.bullets|
    ensures var turns := TurnsOf(w, index, contexts, dt, rules, arena);
            && multiset(BulletsOf(turns)) == multiset(w.bullets[index..])
            && forall k :: 0 <= k < |turns| ==> EndsAs(turns[k].ending, BulletMoved(turns[k].bullet, dt), turns[k].players, contexts, arena)
    decreases |w.bullets| - index
  {
    hide BulletStep, EndsAs;
    if index == |w.bullets| {
      assert w.bullets[index..] == [];
    } else {
      var f := BulletStep(w, index, contexts, dt, rules, arena);
      var next := NextIndex(index, f);
      var later := TurnsOf(f.world, next, contexts, dt, rules, arena);
      StepLeavesTheRest(w, index, contexts, dt, rules, arena);
      EveryBulletHasItsTurn(f.world, next, contexts, dt, rules, arena);
      SameBehindFirst(w.bullets, index, f.world.bullets[next..], BulletsOf(later));
      assert ([TurnOf(w, index, contexts, dt, arena)] + later)[1..] == later;
    }
  }

  function BulletsOf(turns: seq<Turn>): seq<BulletState> {
    if turns == [] then [] else [turns[0].bullet] + BulletsOf(turns[1..])
  }

  lemma {:induction false} PassLeavesItsSurvivors(
      w: World, index: nat, contexts: seq<PlayerSimulationContext>, dt: real, rules: GameRuleConfig, arena: Arena)
    requires index <= |w.bullets|
    ensures multiset(BulletsUpdated(w, index, contexts, dt, rules, arena).0.bullets)
         == multiset(w.bullets[..index]) + multiset(Survivors(TurnsOf(w, index, contexts, dt, rules, arena), dt))
    decreases |w.bullets| - index
  {
    hide BulletStep, TurnOf, EndingOf, BulletMoved, IsLethal, SwapRemoved;
    if index == |w.bullets| {
      assert w.bullets[..index] == w.bullets;
    } else {
      hide BulletsUpdated, TurnsOf, Survivors, EffectsLeft, KillsMade;
      var f, turn := BulletStep(w, index, contexts, dt, rules, arena), TurnOf(w, index, contexts, dt, arena);
      var later := TurnsOf(f.world, NextIndex(index, f), contexts, dt, rules, arena);
      PassGoesOn(w, index, contexts, dt, rules, arena);
      TurnLeavesBullets(w, index, contexts, dt, rules, arena);
      PassLeavesItsSurvivors(f.world, NextIndex(index, f), contexts, dt, rules, arena);
      OneMoreSurvivor(turn, later, dt);
    }
  }

  lemma {:induction false} PassLeavesItsEffects(
      w: World, index: nat, contexts: seq<PlayerSimulationContext>, dt: real, rules: GameRuleConfig, arena: Arena)
    requires index <= |w.bullets|
    ensures BulletsUpdated(w, index, contexts, dt, rules, arena).0.effects
         == w.effects + EffectsLeft(TurnsOf(w, index, contexts, dt, rules, arena), dt, arena)
    decreases |w.bullets| - index
  {
    hide BulletStep, TurnOf, EndingOf, BulletMoved, IsLethal, SwapRemoved;
    if index == |w.bullets| {
      assert w.bullets[..index] == w.bullets;
    } else {
      hide BulletsUpdated, TurnsOf, Survivors, EffectsLeft, KillsMade;
      var f, turn := BulletStep(w, index, contexts, dt, rules, arena), TurnOf(w, index, contexts, dt, arena);
      var later := TurnsOf(f.world, NextIndex(index, f), contexts, dt, rules, arena);
      PassGoesOn(w, index, contexts, dt, rules, arena);
      TurnLeaves(w, index, contexts, dt, rules, arena);
      PassLeavesItsEffects(f.world, NextIndex(index, f), contexts, dt, rules, arena);
      OneMoreEffect(w.effects, turn, later, dt, arena);
    }
  }

  lemma {:induction false} PassLeavesItsKills(
      w: World, index: nat, contexts: seq<PlayerSimulationContext>, dt: real, rules: GameRuleConfig, arena: Arena)
    requires index <= |w.bullets|
    ensures BulletsUpdated(w, index, contexts, dt, rules, arena).1 == KillsMade(TurnsOf(w, index, contexts, dt, rules, arena))
    decreases |w.bullets| - index
  {
    hide BulletStep, TurnOf, EndingOf, BulletMoved, IsLethal, SwapRemoved;
    if index == |w.bullets| {
      assert w.bullets[..index] == w.bullets;
    } else {
      hide BulletsUpdated, TurnsOf, Survivors, EffectsLeft, KillsMade;
      var f, turn := BulletStep(w, index, contexts, dt, rules, arena), TurnOf(w, index, contexts, dt, arena);
      var later := TurnsOf(f.world, NextIndex(index, f), contexts, dt, rules, arena);
      PassGoesOn(w, index, contexts, dt, rules, arena);
      TurnLeaves(w, index, contexts, dt, rules, arena);
      PassLeavesItsKills(f.world, NextIndex(index, f), contexts, dt, rules, arena);
      OneMoreKill(turn, later);
    }
  }

  /** What the turns say is what the pass leaves: the bullets that fly on, moved; an effect for each strike, in order; and a kill event for
      each player struck down, in the name of the bullet's owner. */
  lemma PassLeavesItsTurns(w: World, contexts: seq<PlayerSimulationContext>, dt: real, rules: GameRuleConfig, arena: Arena)
    ensures var (w', kills) := BulletsUpdated(w, 0, contexts, dt, rules, arena);
            var turns := TurnsOf(w, 0, contexts, dt, rules, arena);
            && multiset(w'.bullets) == multiset(Survivors(turns, dt))
            && w'.effects == w.effects + EffectsLeft(turns, dt, arena)
            && kills == KillsMade(turns)
  {
    hide BulletsUpdated, TurnsOf, Survivors, EffectsLeft, KillsMade;
    PassLeavesItsSurvivors(w, 0, contexts, dt, rules, arena);
    PassLeavesItsEffects(w, 0, contexts, dt, rules, arena);
    PassLeavesItsKills(w, 0, contexts, dt, rules, arena);
    assert w.bullets[..0] == [];
  }

  lemma PassGoesOn(w: World, index: nat, contexts: seq<PlayerSimulationContext>, dt: real, rules: GameRuleConfig, arena: Arena)
    requires index < |w.bullets|
    ensures var f := BulletStep(w, index, contexts, dt, rules, arena);
            var (w', later) := BulletsUpdated(f.world, NextIndex(index, f), contexts, dt, rules, arena);
            && BulletsUpdated(w, index, contexts, dt, rules, arena) == (w', f.kills + later)
            && TurnsOf(w, index, contexts, dt, rules, arena)
               == [TurnOf(w, index, contexts, dt, arena)] + TurnsOf(f.world, NextIndex(index, f), contexts, dt, rules, arena)
  {
    hide BulletStep, TurnOf;
  }

  lemma OneMoreSurvivor(turn: Turn, later: seq<Turn>, dt: real)
    ensures multiset(Survivors([turn] + later, dt)) == multiset(Survivors([turn], dt)) + multiset(Survivors(later, dt))
  {
    assert ([turn] + later)[1..] == later && [turn][1..] == [];
  }

  lemma OneMoreEffect(effects: seq<ImpactEffectState>, turn: Turn, later: seq<Turn>, dt: real, arena: Arena)
    ensures effects + EffectsLeft([turn] + later, dt, arena) == effects + EffectsLeft([turn], dt, arena) + EffectsLeft(later, dt, arena)
  {
    assert ([turn] + later)[1..] == later && [turn][1..] == [];
  }

  lemma OneMoreKill(turn: Turn, later: seq<Turn>)
    ensures KillsMade([turn] + later) == KillsMade([turn]) + KillsMade(later)
  {
    assert ([turn] + later)[1..] == later && [turn][1..] == [];
  }

  /** In front of the next index are the bullets passed before, and this one if it flies on. */
  lemma TurnLeavesBullets(w: World, index: nat, contexts: seq<PlayerSimulationContext>, dt: real, rules: GameRuleConfig, arena: Arena)
    requires index < |w.bullets|
    ensures var f, turn := BulletStep(w, index, contexts, dt, rules, arena), TurnOf(w, index, contexts, dt, arena);
            multiset(f.world.bullets[..NextIndex(index, f)]) == multiset(w.bullets[..index]) + multiset(Survivors([turn], dt))
  {
    TurnLeaves(w, index, contexts, dt, rules, arena);
    hide EndingOf;
    var f, turn := BulletStep(w, index, contexts, dt, rules, arena), TurnOf(w, index, contexts, dt, arena);
    var list := w.bullets[index := BulletMoved(w.bullets[index], dt)];
    assert [turn][1..] == [];
    if f.isErased {
      SwapRemovalTakesOne(list, index);
      assert f.world.bullets[..index] == w.bullets[..index];
    } else {
      assert f.world.bullets[..index + 1] == w.bullets[..index] + [BulletMoved(w.bullets[index], dt)];
    }
  }

  // Bullets over many passes.

  function Way(speed: real, time: real): real {
    speed * time
  }

  /** The time that a number of passes takes. */
  function TimeOf(n: nat, dt: real): real {
    n as real * dt
  }

  /** Where a bullet is after flying for a time, and how much of its life is left. */
  function Flown(b: BulletState, time: real): BulletState {
    b.(position := Position(b.position.x + Way(b.velocity.x, time), b.position.y + Way(b.velocity.y, time)),
       remainingLifeSeconds := b.remainingLifeSeconds - time)
  }

  lemma FlightsAdd(b: BulletState, time: real, dt: real)
    ensures BulletMoved(Flown(b, time), dt) == Flown(b, time + dt)
  {
    hide Way;
    WaysAdd(b.velocity.x, time, dt);
    WaysAdd(b.velocity.y, time, dt);
  }

  lemma WaysAdd(speed: real, time: real, dt: real)
    ensures Way(speed, time + dt) == Way(speed, time) + speed * dt
  {
  }

  lemma TimesAdd(n: nat, dt: real)
    requires n > 0
    ensures TimeOf(n - 1, dt) + dt == TimeOf(n, dt)
  {
  }

  lemma NoTime(dt: real)
    ensures TimeOf(0, dt) == 0.0
  {
  }

  lemma NotFlown(b: BulletState)
    ensures Flown(b, 0.0) == b
  {
  }

  lemma TimeIsNotNegative(n: nat, dt: real)
    requires dt >= 0.0
    ensures TimeOf(n, dt) >= 0.0
  {
  }

  /** The bullets of a world are those a pass leaves of the bullets of another, whatever else happened in between. */
  ghost predicate IsPass(before: World, after: World, dt: real, rules: GameRuleConfig, arena: Arena) {
    exists w: World, contexts :: w.bullets == before.bullets && after.bullets == BulletsUpdated(w, 0, contexts, dt, rules, arena).0.bullets
  }

  ghost predicate ArePasses(worlds: seq<World>, dt: real, rules: GameRuleConfig, arena: Arena) {
    forall i :: 0 <= i < |worlds| - 1 ==> IsPass(worlds[i], worlds[i + 1], dt, rules, arena)
  }

  lemma {:induction false} SurvivorsHaveFlown(turns: seq<Turn>, dt: real, b: BulletState) returns (k: nat)
    requires b in Survivors(turns, dt)
    ensures k < |turns| && turns[k].ending.FliesOn? && b == BulletMoved(turns[k].bullet, dt)
  {
    hide BulletMoved;
    if b !in Survivors(turns[1..], dt) {
      k := 0;
    } else {
      var later := SurvivorsHaveFlown(turns[1..], dt, b);
      k := later + 1;
    }
  }

  lemma {:induction false} BulletOfTurn(turns: seq<Turn>, k: nat)
    requires k < |turns|
    ensures turns[k].bullet in BulletsOf(turns)
  {
    if k > 0 {
      BulletOfTurn(turns[1..], k - 1);
    }
  }

  lemma OnePassFlies(
      before: World, after: World, dt: real, rules: GameRuleConfig, arena: Arena, b: BulletState) returns (earlier: BulletState)
    requires IsPass(before, after, dt, rules, arena) && b in after.bullets
    ensures earlier in before.bullets && b == BulletMoved(earlier, dt) && b.remainingLifeSeconds > 0.0
  {
    hide BulletsUpdated, BulletMoved;
    var w: World, contexts :| w.bullets == before.bullets && after.bullets == BulletsUpdated(w, 0, contexts, dt, rules, arena).0.bullets;
    var turns := TurnsOf(w, 0, contexts, dt, rules, arena);
    PassLeavesItsTurns(w, contexts, dt, rules, arena);
    EveryBulletHasItsTurn(w, 0, contexts, dt, rules, arena);
    assert w.bullets[0..] == w.bullets;
    assert b in multiset(after.bullets);
    var k := SurvivorsHaveFlown(turns, dt, b);
    BulletOfTurn(turns, k);
    earlier := turns[k].bullet;
    assert earlier in multiset(w.bullets);
  }

  /** After any number of passes every bullet left is one of the first world's, as far along its straight line as the time that has
      passed, and has life left; so once the time reaches their lives, all of them are gone. */
  lemma {:induction false} BulletsFlyStraightAndExpire(
      worlds: seq<World>, n: nat, dt: real, rules: GameRuleConfig, arena: Arena, b: BulletState) returns (first: BulletState)
    requires ArePasses(worlds, dt, rules, arena) && n < |worlds| && b in worlds[n].bullets
    ensures first in worlds[0].bullets && b == Flown(first, TimeOf(n, dt))
    ensures n > 0 ==> TimeOf(n, dt) < first.remainingLifeSeconds
  {
    hide IsPass, Flown, BulletMoved, TimeOf;
    if n == 0 {
      first := b;
      NoTime(dt);
      NotFlown(b);
    } else {
      assert IsPass(worlds[n - 1], worlds[n - 1 + 1], dt, rules, arena);
      var earlier := OnePassFlies(worlds[n - 1], worlds[n], dt, rules, arena, b);
      first := BulletsFlyStraightAndExpire(worlds, n - 1, dt, rules, arena, earlier);
      FlightsAdd(first, TimeOf(n - 1, dt), dt);
      TimesAdd(n, dt);
      LifeRunsDown(first, TimeOf(n, dt));
    }
  }

  lemma LifeRunsDown(b: BulletState, time: real)
    ensures Flown(b, time).remainingLifeSeconds == b.remainingLifeSeconds - time
  {
  }

  // Coming back to life.

  /** A dead player waits until its time is up and it is listed; then it is back at the first spawn point of its room, whole and for a
      while invincible, with its counts. */
  predicate IsAfterRespawn(p: PlayerState, p': PlayerState, id: PlayerId, contexts: seq<PlayerSimulationContext>, dt: real, rules: GameRuleConfig, arena: Arena) {
    if !p.isDead then p' == p
    else if p.respawnRemainingSeconds > dt || forall k :: 0 <= k < |contexts| ==> contexts[k].playerId != id
    then p' == p.(respawnRemainingSeconds := p.respawnRemainingSeconds - dt)
    else
      && (exists k :: 0 <= k < |contexts| && contexts[k].playerId == id && p'.position == arena.spawnPoint(contexts[k].roomId, 0))
      && p' == PlayerState(p.playerId, p'.position, p.moveSpeed, NO_INPUT, rules.initialPlayerHp, false, p.killCount, p.deathCount,
                           0.0, rules.respawnInvincibilitySeconds, 0.0, 0.0, Position(1.0, 0.0))
  }

  lemma RespawnPassLeavesPlayer(
      w: World, order: seq<PlayerId>, contexts: seq<PlayerSimulationContext>, dt: real, rules: GameRuleConfig, arena: Arena, id: PlayerId)
    requires (forall i, j :: 0 <= i < j < |order| ==> order[i] != order[j]) && (forall k :: k in order <==> k in w.players) && id in w.players
    ensures var w' := Respawned(w, order, contexts, dt, rules, arena);
            w'.players.Keys == w.players.Keys && IsAfterRespawn(w.players[id], w'.players[id], id, contexts, dt, rules, arena)
  {
    RespawnsAreIndependent(w, order, contexts, dt, rules, arena, id);
  }

  /** Where the players that come back appear, in the order of the pass. */
  function SpawnsShown(
      players: PlayerTable, order: seq<PlayerId>, contexts: seq<PlayerSimulationContext>, dt: real, arena: Arena): seq<ImpactEffectState> {
    if order == [] then []
    else
      var last := order[|order| - 1];
      SpawnsShown(players, order[..|order| - 1], contexts, dt, arena)
      + if last in players then SpawnShown(players[last], ContextOf(contexts, last), dt, arena) else []
  }

  function SpawnShown(p: PlayerState, context: Option<PlayerSimulationContext>, dt: real, arena: Arena): seq<ImpactEffectState> {
    if p.isDead && p.respawnRemainingSeconds <= dt && context.Some?
    then [ImpactEffectState(context.value.roomId, Spawn, arena.spawnPoint(context.value.roomId, 0))] else []
  }

  lemma RespawnStepShowsSpawn(
      w: World, id: PlayerId, contexts: seq<PlayerSimulationContext>, dt: real, rules: GameRuleConfig, arena: Arena)
    requires id in w.players
    ensures var w' := RespawnStep(w, id, contexts, dt, rules, arena);
            w'.effects == w.effects + SpawnShown(w.players[id], ContextOf(contexts, id), dt, arena) && w'.bullets == w.bullets
  {
  }

  /** The pass adds one effect for each player that comes back, at the place it comes back to, and touches no bullet. */
  lemma {:induction false} RespawnPassShowsSpawns(
      w: World, order: seq<PlayerId>, contexts: seq<PlayerSimulationContext>, dt: real, rules: GameRuleConfig, arena: Arena)
    requires (forall i, j :: 0 <= i < j < |order| ==> order[i] != order[j]) && (forall k :: k in order ==> k in w.players)
    ensures var w' := Respawned(w, order, contexts, dt, rules, arena);
            w'.effects == w.effects + SpawnsShown(w.players, order, contexts, dt, arena) && w'.bullets == w.bullets
  {
    hide RespawnStep, SpawnShown;
    if order != [] {
      var earlier, last := order[..|order| - 1], order[|order| - 1];
      var before := Respawned(w, earlier, contexts, dt, rules, arena);
      RespawnPassShowsSpawns(w, earlier, contexts, dt, rules, arena);
      assert order == earlier + [last] && last !in earlier;
      RespawnsAreIndependent(w, earlier, contexts, dt, rules, arena, last);
      RespawnStepShowsSpawn(before, last, contexts, dt, rules, arena);
      assert w.effects + SpawnsShown(w.players, earlier, contexts, dt, arena) + SpawnShown(w.players[last], ContextOf(contexts, last), dt, arena)
          == w.effects + (SpawnsShown(w.players, earlier, contexts, dt, arena) + SpawnShown(w.players[last], ContextOf(contexts, last), dt, arena));
    }
  }

  // Timers.

  /** A running timer has lost the time that has passed, down to zero; a stopped one stays as it is. */
  predicate IsRunDown(before: real, after: real, time: real) {
    after == if before <= 0.0 then before else Max(before - time, 0.0)
  }

  /** Only the timers differ, and they have run down. */
  predicate HaveRunDown(p: PlayerState, p': PlayerState, time: real) {
    && p' == p.(invincibilityRemainingSeconds := p'.invincibilityRemainingSeconds, hitFlashRemainingSeconds := p'.hitFlashRemainingSeconds,
                fireCooldownRemainingSeconds := p'.fireCooldownRemainingSeconds)
    && IsRunDown(p.invincibilityRemainingSeconds, p'.invincibilityRemainingSeconds, time)
    && IsRunDown(p.hitFlashRemainingSeconds, p'.hitFlashRemainingSeconds, time)
    && IsRunDown(p.fireCooldownRemainingSeconds, p'.fireCooldownRemainingSeconds, time)
  }

  function TimersUpdatedTimes(w: World, dt: real, n: nat): World {
    if n == 0 then w else TimersUpdated(TimersUpdatedTimes(w, dt, n - 1), dt)
  }

  /** However many passes it takes: after a time every player's timers have run down by just that time. */
  lemma {:induction false} TimersRunDown(w: World, dt: real, n: nat, id: PlayerId)
    requires dt >= 0.0 && id in w.players
    ensures var w' := TimersUpdatedTimes(w, dt, n);
            w'.players.Keys == w.players.Keys && HaveRunDown(w.players[id], w'.players[id], TimeOf(n, dt))
  {
    hide TimersUpdated, HaveRunDown, TimeOf;
    if n == 0 {
      NoTime(dt);
      NoneRunsDown(w.players[id]);
    } else {
      var before := TimersUpdatedTimes(w, dt, n - 1);
      TimersRunDown(w, dt, n - 1, id);
      OnePassRunsDown(before, dt, id);
      TimesAdd(n, dt);
      TimeIsNotNegative(n - 1, dt);
      RunsDownFurther(w.players[id], before.players[id], TimersUpdatedTimes(w, dt, n).players[id], TimeOf(n - 1, dt), dt);
    }
  }

  lemma NoneRunsDown(p: PlayerState)
    ensures HaveRunDown(p, p, 0.0)
  {
  }

  lemma OnePassRunsDown(w: World, dt: real, id: PlayerId)
    requires id in w.players
    ensures var w' := TimersUpdated(w, dt);
            w'.players.Keys == w.players.Keys && HaveRunDown(w.players[id], w'.players[id], dt) && w' == w.(players := w'.players)
  {
  }

  lemma RunsDownFurther(p: PlayerState, p': PlayerState, p'': PlayerState, time: real, dt: real)
    requires time >= 0.0 && dt >= 0.0 && HaveRunDown(p, p', time) && HaveRunDown(p', p'', dt)
    ensures HaveRunDown(p, p'', time + dt)
  {
  }
}
