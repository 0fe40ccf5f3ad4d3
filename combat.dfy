/** The combat resolver (`simulateBattle` in pages/tournament.tsx).

    Each turn picks a living member on each side, lets the faster one strike first
    (a coin decides equal speeds), applies the damage formula, logs a knockout, and
    lets a surviving defender strike back. The loop stops when a side has no
    living member or after 9999 turns; at that ceiling the larger summed health
    wins and ties go to the second team. The battle works on copies of the two
    rosters: team values are never changed by it. */
module Combat {
  import opened Pokedata
  import opened Random
  import Text

  /** `MAX_ROUNDS`: the turn ceiling. */
  const MaxRounds: nat := 9999

  const CriticalHitChance: real := 0.1

  function Max(a: int, b: int): int
  {
    if a >= b then a else b
  }

  // ---------------------------------------------------------------------------
  // One blow
  // ---------------------------------------------------------------------------

  /** The damage of one blow in exact integer arithmetic:
      `max(1, floor(atk × (critical ? 1.5 : 1)))`, then
      `max(1, floor(damage × (1 − def/100)))`. Dafny's `/` by a positive divisor is
      floor division, also for negative dividends. Damage is never below 1,
      whatever the stats (a defence of 100 or more included). */
  function Damage(atk: int, def: int, critical: bool): (d: int)
    ensures d >= 1
  {
    var raw := Max(1, if critical then (atk * 3) / 2 else atk);
    Max(1, (raw * (100 - def)) / 100)
  }

  /** The damage formula as the source writes it, over exact reals
      (the source evaluates it in binary floating point, see the README). */
  function DamageAsWritten(atk: int, def: int, critical: bool): int
  {
    var raw := Max(1, (atk as real * (if critical then 1.5 else 1.0)).Floor);
    Max(1, (raw as real * (1.0 - def as real / 100.0)).Floor)
  }

  lemma RealOfProduct(a: int, b: int)
    ensures (a * b) as real == a as real * b as real
  {
  }

  lemma FloorOfQuotient(p: int, k: int)
    requires k > 0
    ensures (p as real / k as real).Floor == p / k
  {
    var q, r := p / k, p % k;
    assert p == q * k + r;
    RealOfProduct(q, k);
    assert p as real == q as real * k as real + r as real;
    assert p as real / k as real == q as real + r as real / k as real;
  }

  /** The integer formula is the source's real-valued one, for every input. */
  lemma DamageIsExact(atk: int, def: int, critical: bool)
    ensures Damage(atk, def, critical) == DamageAsWritten(atk, def, critical)
  {
    if critical {
      assert atk as real * 1.5 == (atk * 3) as real / 2 as real;
      FloorOfQuotient(atk * 3, 2);
    } else {
      assert (atk as real * 1.0).Floor == atk;
    }
    var raw := Max(1, if critical then (atk * 3) / 2 else atk);
    RealOfProduct(raw, 100 - def);
    assert raw as real * (1.0 - def as real / 100.0) == (raw * (100 - def)) as real / 100 as real;
    FloorOfQuotient(raw * (100 - def), 100);
  }

  /** `Math.max(0, hp - damage)`: health after a blow. */
  function Hit(hp: int, damage: int): (r: int)
    requires damage >= 1
    ensures r >= 0
    ensures hp > 0 ==> r < hp
    ensures r == 0 <==> hp <= damage
  {
    Max(0, hp - damage)
  }

  /** Who opens the turn, and the index of the next unread draw. Side 1's candidate
      goes first when it is strictly faster, or on equal speed when the coin draw
      is below 0.5; the coin is drawn only in the tie (`||` and `&&` short-circuit). */
  function Initiative(vit1: int, vit2: int, rng: Rng, cursor: nat): (r: (bool, nat))
    ensures r.0 <==> vit1 > vit2 || (vit1 == vit2 && rng(cursor) < 0.5)
    ensures r.1 == if vit1 == vit2 then cursor + 1 else cursor
  {
    if vit1 > vit2 then (true, cursor)
    else if vit1 == vit2 then (rng(cursor) < 0.5, cursor + 1)
    else (false, cursor)
  }

  // ---------------------------------------------------------------------------
  // Events, logs and the battle summary
  // ---------------------------------------------------------------------------

  /** The structured events of `battleEvents`. */
  datatype BattleEvent =
    | Attack(attacker: string, defender: string, damage: int, critical: bool)
    | Counter(attacker: string, defender: string, damage: int, critical: bool)
    | KO(pokemon: string, remainingHp: int)

  /** A line of the human-readable log (the display-only team/creature tags are not kept). */
  datatype BattleLog = BattleLog(text: string, highlight: bool)

  const Swords: string := "\U{2694}\U{FE0F}"

  function OpeningText(team1: string, team2: string): string
  {
    Swords + " " + team1 + " affronte " + team2 + " " + Swords
  }

  function AttackText(attacker: string, team: string, defender: string, critical: bool, damage: int): string
  {
    attacker + " (" + team + ") attaque " + defender
    + (if critical then " \U{1F4A5} Coup critique!" else "")
    + " et inflige " + Text.IntToString(damage) + " d\U{E9}g\U{E2}ts."
  }

  function KoText(name: string): string
  {
    name + " est K.O. !"
  }

  function CounterText(name: string, damage: int): string
  {
    name + " riposte et inflige " + Text.IntToString(damage) + " d\U{E9}g\U{E2}ts."
  }

  function CeilingText(winner: string): string
  {
    "Limite de tours atteinte! " + winner + " l\U{2019}emporte aux points de vie."
  }

  /** The last line of every battle log, from which the bracket reads the winner. */
  function WinnerText(winner: string): string
  {
    winner + " remporte le combat!"
  }

  /** Every attack and counter-attack did at least 1 damage, every knockout left
      the creature at exactly 0, and counter events are never flagged critical. */
  predicate WellFormedEvents(es: seq<BattleEvent>)
  {
    forall k :: 0 <= k < |es| ==>
      && ((es[k].Attack? || es[k].Counter?) ==> es[k].damage >= 1)
      && (es[k].Counter? ==> !es[k].critical)
      && (es[k].KO? ==> es[k].remainingHp == 0)
  }

  datatype MemberRecord = MemberRecord(pokedexId: int, name: string, startingHp: Option<int>, remainingHp: int)

  datatype TeamRecord = TeamRecord(id: int, name: string, pokemons: seq<MemberRecord>)

  /** The payload handed to the battle recorder (`battleData`). */
  datatype BattleSummary = BattleSummary(
    team1: TeamRecord, team2: TeamRecord, events: seq<BattleEvent>, matchWinner: string, teamWinner: string)

  /** `startingHp` is the base health stat (null without stats); `remainingHp` the
      health at the end of the battle. */
  function MemberRecordOf(m: Member): MemberRecord
  {
    MemberRecord(m.creature.pokedexId, m.creature.name,
      if m.creature.stats.Some? then Some(m.creature.stats.value.hp) else None, m.currentHp)
  }

  function TeamRecordOf(t: Team, side: seq<Member>): (r: TeamRecord)
    ensures |r.pokemons| == |side|
  {
    TeamRecord(t.id, t.name, seq(|side|, k requires 0 <= k < |side| => MemberRecordOf(side[k])))
  }

  // ---------------------------------------------------------------------------
  // Sides
  // ---------------------------------------------------------------------------

  /** `side.some(p => p.currentHp > 0)`. */
  predicate Alive(side: seq<Member>)
  {
    exists k :: 0 <= k < |side| && side[k].currentHp > 0
  }

  /** The positions of `side.filter(p => p.currentHp > 0)`, in order. */
  function Living(side: seq<Member>): (r: seq<nat>)
    ensures forall k :: 0 <= k < |r| ==> r[k] < |side| && side[r[k]].currentHp > 0
    ensures |r| > 0 <==> Alive(side)
    decreases |side|
  {
    if side == [] then []
    else
      var init := side[..|side| - 1];
      var rest := Living(init);
      assert Alive(init) ==> Alive(side) by {
        if Alive(init) {
          var k :| 0 <= k < |init| && init[k].currentHp > 0;
          assert side[k] == init[k];
        }
      }
      if side[|side| - 1].currentHp > 0 then rest + [|side| - 1] else rest
  }

  /** The positions are listed in roster order. */
  lemma {:induction false} LivingInOrder(side: seq<Member>)
    ensures forall i, j :: 0 <= i < j < |Living(side)| ==> Living(side)[i] < Living(side)[j]
    decreases |side|
  {
    if side != [] {
      LivingInOrder(side[..|side| - 1]);
    }
  }

  /** Every living member is listed, so the draw can land on any of them. */
  lemma {:induction false} LivingComplete(side: seq<Member>, k: nat)
    requires k < |side| && side[k].currentHp > 0
    ensures k in Living(side)
    decreases |side|
  {
    if k < |side| - 1 {
      LivingComplete(side[..|side| - 1], k);
    }
  }

  /** `side.reduce((sum, p) => sum + p.currentHp, 0)`. */
  function TotalHp(side: seq<Member>): int
    decreases |side|
  {
    if side == [] then 0 else TotalHp(side[..|side| - 1]) + side[|side| - 1].currentHp
  }

  /** No member has negative health. */
  predicate NonNegativeHp(side: seq<Member>)
  {
    forall k :: 0 <= k < |side| ==> side[k].currentHp >= 0
  }

  lemma {:induction false} TotalHpNonNegative(side: seq<Member>)
    requires NonNegativeHp(side)
    ensures TotalHp(side) >= 0
    decreases |side|
  {
    if side != [] {
      TotalHpNonNegative(side[..|side| - 1]);
    }
  }

  /** Replacing one member changes the summed health by the change in its health. */
  lemma {:induction false} TotalHpUpdate(side: seq<Member>, i: nat, m: Member)
    requires i < |side|
    ensures TotalHp(side[i := m]) == TotalHp(side) - side[i].currentHp + m.currentHp
    decreases |side|
  {
    var u := side[i := m];
    if i < |side| - 1 {
      assert u[..|u| - 1] == side[..|side| - 1][i := m];
      TotalHpUpdate(side[..|side| - 1], i, m);
    } else {
      assert u[..|u| - 1] == side[..|side| - 1];
    }
  }

  /** `after` is `before` worn down: the same creatures, each health unchanged or
      strictly lower and not below 0. A member at 0 health therefore never changes
      again: once knocked out, a creature is never struck again. */
  predicate Worn(before: seq<Member>, after: seq<Member>)
  {
    && |after| == |before|
    && forall k :: 0 <= k < |before| ==>
      && after[k].creature == before[k].creature
      && (after[k].currentHp == before[k].currentHp || 0 <= after[k].currentHp < before[k].currentHp)
  }

  lemma WornTransitive(a: seq<Member>, b: seq<Member>, c: seq<Member>)
    requires Worn(a, b) && Worn(b, c)
    ensures Worn(a, c)
  {
  }

  // ---------------------------------------------------------------------------
  // The turn
  // ---------------------------------------------------------------------------

  /** The two combatants after an exchange, with what the exchange logged. */
  datatype Blows = Blows(attacker: Member, defender: Member, logs: seq<BattleLog>, events: seq<BattleEvent>, cursor: nat)

  /** Steps after initiative: the blow (critical flag already drawn), the knockout
      check, and the counter-attack of a surviving defender (which reads one draw
      for its own critical roll). */
  function Exchange(attacker: Member, defender: Member, attackerTeam: string, critical: bool, rng: Rng, cursor: nat): Blows
    requires Fighter(attacker) && Fighter(defender)
  {
    var damage := Damage(attacker.creature.stats.value.atk, defender.creature.stats.value.def, critical);
    var struck := defender.(currentHp := Hit(defender.currentHp, damage));
    var attack := Attack(attacker.creature.name, defender.creature.name, damage, critical);
    var attackLog := BattleLog(AttackText(attacker.creature.name, attackerTeam, defender.creature.name, critical, damage), false);
    if struck.currentHp <= 0 then
      Blows(attacker, struck, [attackLog, BattleLog(KoText(defender.creature.name), false)],
        [attack, KO(defender.creature.name, struck.currentHp)], cursor)
    else
      var counterDamage := Damage(defender.creature.stats.value.atk, attacker.creature.stats.value.def, rng(cursor) < CriticalHitChance);
      var hurt := attacker.(currentHp := Hit(attacker.currentHp, counterDamage));
      var logs := [attackLog, BattleLog(CounterText(defender.creature.name, counterDamage), false)];
      var events := [attack, Counter(defender.creature.name, attacker.creature.name, counterDamage, false)];
      if hurt.currentHp <= 0 then
        Blows(hurt, struck, logs + [BattleLog(KoText(attacker.creature.name), false)],
          events + [KO(attacker.creature.name, hurt.currentHp)], cursor + 1)
      else
        Blows(hurt, struck, logs, events, cursor + 1)
  }

  /** What an exchange between two standing fighters does. The defender loses health
      (floored at 0) and the attacker keeps its health or loses some; they cannot both
      fall. If the defender is knocked out, a KO event at 0 health follows the attack,
      the attacker is untouched and no draw is read; otherwise a counter event by the
      defender follows, one draw is read, and a second KO event comes exactly when the
      attacker falls to 0. */
  lemma ExchangeOutcome(attacker: Member, defender: Member, attackerTeam: string, critical: bool, rng: Rng, cursor: nat)
    requires Fighter(attacker) && Fighter(defender)
    requires attacker.currentHp > 0 && defender.currentHp > 0
    ensures var x := Exchange(attacker, defender, attackerTeam, critical, rng, cursor);
      && x.attacker.creature == attacker.creature && x.defender.creature == defender.creature
      && 0 <= x.defender.currentHp < defender.currentHp
      && (x.attacker.currentHp == attacker.currentHp || 0 <= x.attacker.currentHp < attacker.currentHp)
      && (x.attacker.currentHp > 0 || x.defender.currentHp > 0)
      && 2 <= |x.events| <= 3 && |x.logs| == |x.events|
      && x.events[0] == Attack(attacker.creature.name, defender.creature.name,
        Damage(attacker.creature.stats.value.atk, defender.creature.stats.value.def, critical), critical)
      && (x.defender.currentHp == 0 ==>
        && x.events == [x.events[0], KO(defender.creature.name, 0)]
        && x.attacker == attacker && x.cursor == cursor)
      && (x.defender.currentHp > 0 ==>
        && x.events[1].Counter? && x.events[1].attacker == defender.creature.name
        && x.events[1].defender == attacker.creature.name
        && x.cursor == cursor + 1
        && (|x.events| == 3 <==> x.attacker.currentHp == 0)
        && (|x.events| == 3 ==> x.events[2] == KO(attacker.creature.name, 0)))
      && WellFormedEvents(x.events)
  {
  }

  /** The state of the loop in `simulateBattle`: the two copied rosters, the turn
      counter, the next unread draw, and what has been logged so far. */
  datatype Fight = Fight(
    side1: seq<Member>, side2: seq<Member>, turns: nat, cursor: nat,
    logs: seq<BattleLog>, events: seq<BattleEvent>)

  /** The loop condition. */
  predicate Ongoing(f: Fight)
  {
    Alive(f.side1) && Alive(f.side2) && f.turns < MaxRounds
  }

  /** The exchange between member `i1` of side 1 and member `i2` of side 2, side 1
      striking first when `first`, with the opener's critical flag already drawn and
      the counter's draw at `cursor`. */
  function Clash(f: Fight, i1: nat, i2: nat, first: bool, critical: bool, cursor: nat, name1: string, name2: string, rng: Rng): (g: Fight)
    requires i1 < |f.side1| && i2 < |f.side2|
    requires Fighter(f.side1[i1]) && Fighter(f.side2[i2])
    ensures g.turns == f.turns + 1
  {
    var p1 := f.side1[i1];
    var p2 := f.side2[i2];
    if first then
      var x := Exchange(p1, p2, name1, critical, rng, cursor);
      Fight(f.side1[i1 := x.attacker], f.side2[i2 := x.defender], f.turns + 1, x.cursor, f.logs + x.logs, f.events + x.events)
    else
      var x := Exchange(p2, p1, name2, critical, rng, cursor);
      Fight(f.side1[i1 := x.defender], f.side2[i2 := x.attacker], f.turns + 1, x.cursor, f.logs + x.logs, f.events + x.events)
  }

  /** Only the two combatants change, both rosters are worn down, at least one of
      the two is still standing, and the logs only grow, with well-formed events. */
  lemma ClashOutcome(f: Fight, i1: nat, i2: nat, first: bool, critical: bool, cursor: nat, name1: string, name2: string, rng: Rng)
    requires i1 < |f.side1| && i2 < |f.side2|
    requires Fighter(f.side1[i1]) && Fighter(f.side2[i2])
    requires f.side1[i1].currentHp > 0 && f.side2[i2].currentHp > 0
    ensures var g := Clash(f, i1, i2, first, critical, cursor, name1, name2, rng);
      && Worn(f.side1, g.side1) && Worn(f.side2, g.side2)
      && (forall k :: 0 <= k < |f.side1| && k != i1 ==> g.side1[k] == f.side1[k])
      && (forall k :: 0 <= k < |f.side2| && k != i2 ==> g.side2[k] == f.side2[k])
      && (g.side1[i1].currentHp > 0 || g.side2[i2].currentHp > 0)
      && g.cursor >= cursor
      && f.events < g.events && f.logs < g.logs
      && (WellFormedEvents(f.events) ==> WellFormedEvents(g.events))
  {
    if first {
      ExchangeOutcome(f.side1[i1], f.side2[i2], name1, critical, rng, cursor);
    } else {
      ExchangeOutcome(f.side2[i2], f.side1[i1], name2, critical, rng, cursor);
    }
  }

  /** The draws of a turn: the member fighting for each side, whether side 1
      strikes first, whether the opening blow is critical, and the next unread draw. */
  datatype Choice = Choice(i1: nat, i2: nat, first: bool, critical: bool, cursor: nat)

  /** Draws 1 and 2 pick a living member on each side, uniformly among the living
      (`Math.floor(Math.random() * alive.length)`); the initiative may read a coin
      draw; the next draw is the opener's critical roll. */
  function Choose(f: Fight, rng: Rng): (c: Choice)
    requires Ongoing(f) && AllFighters(f.side1) && AllFighters(f.side2)
    ensures c.i1 < |f.side1| && f.side1[c.i1].currentHp > 0
    ensures c.i2 < |f.side2| && f.side2[c.i2].currentHp > 0
    ensures c.i1 == Living(f.side1)[Pick(rng(f.cursor), |Living(f.side1)|)]
    ensures c.i2 == Living(f.side2)[Pick(rng(f.cursor + 1), |Living(f.side2)|)]
    ensures var vit1, vit2 := f.side1[c.i1].creature.stats.value.vit, f.side2[c.i2].creature.stats.value.vit;
      && (c.first <==> vit1 > vit2 || (vit1 == vit2 && rng(f.cursor + 2) < 0.5))
      && c.cursor == f.cursor + (if vit1 == vit2 then 4 else 3)
      && (c.critical <==> rng(c.cursor - 1) < CriticalHitChance)
  {
    var alive1 := Living(f.side1);
    var alive2 := Living(f.side2);
    var i1 := alive1[Pick(rng(f.cursor), |alive1|)];
    var i2 := alive2[Pick(rng(f.cursor + 1), |alive2|)];
    var initiative := Initiative(f.side1[i1].creature.stats.value.vit, f.side2[i2].creature.stats.value.vit, rng, f.cursor + 2);
    var c := initiative.1;
    Choice(i1, i2, initiative.0, rng(c) < CriticalHitChance, c + 1)
  }

  /** The picks can land on any living member of either side: the draw
      `j / |alive|` selects the `j`-th living member. */
  lemma ChooseReaches(f: Fight, rng: Rng, j1: nat, j2: nat)
    requires Ongoing(f) && AllFighters(f.side1) && AllFighters(f.side2)
    requires j1 < |Living(f.side1)| && rng(f.cursor) == j1 as real / |Living(f.side1)| as real
    requires j2 < |Living(f.side2)| && rng(f.cursor + 1) == j2 as real / |Living(f.side2)| as real
    ensures Choose(f, rng).i1 == Living(f.side1)[j1]
    ensures Choose(f, rng).i2 == Living(f.side2)[j2]
  {
    PickReaches(|Living(f.side1)|, j1);
    PickReaches(|Living(f.side2)|, j2);
  }

  /** Every living member of either side is picked by some pair of draws. */
  lemma ChooseAnyLiving(f: Fight, rng: Rng, k1: nat, k2: nat)
    requires Ongoing(f) && AllFighters(f.side1) && AllFighters(f.side2)
    requires k1 < |f.side1| && f.side1[k1].currentHp > 0
    requires k2 < |f.side2| && f.side2[k2].currentHp > 0
    ensures exists j1, j2 :: 0 <= j1 < |Living(f.side1)| && 0 <= j2 < |Living(f.side2)| && Living(f.side1)[j1] == k1 && Living(f.side2)[j2] == k2
  {
    LivingComplete(f.side1, k1);
    LivingComplete(f.side2, k2);
  }

  /** One turn: the draws, then the exchange between the two chosen members. */
  function Turn(f: Fight, name1: string, name2: string, rng: Rng): (g: Fight)
    requires Ongoing(f) && AllFighters(f.side1) && AllFighters(f.side2)
    ensures g.turns == f.turns + 1
  {
    var c := Choose(f, rng);
    Clash(f, c.i1, c.i2, c.first, c.critical, c.cursor, name1, name2, rng)
  }

  /** A turn wears both rosters down, leaves a living member on some side, reads
      at least the three draws of the picks and the critical roll, and only extends
      the logs, with well-formed events. */
  lemma TurnOutcome(f: Fight, name1: string, name2: string, rng: Rng)
    requires Ongoing(f) && AllFighters(f.side1) && AllFighters(f.side2)
    ensures var g := Turn(f, name1, name2, rng);
      && Worn(f.side1, g.side1) && Worn(f.side2, g.side2)
      && AllFighters(g.side1) && AllFighters(g.side2)
      && (Alive(g.side1) || Alive(g.side2))
      && g.cursor >= f.cursor + 3
      && f.events < g.events && f.logs < g.logs
      && (WellFormedEvents(f.events) ==> WellFormedEvents(g.events))
  {
    var c := Choose(f, rng);
    ClashOutcome(f, c.i1, c.i2, c.first, c.critical, c.cursor, name1, name2, rng);
    var g := Turn(f, name1, name2, rng);
    assert g.side1[c.i1].currentHp > 0 || g.side2[c.i2].currentHp > 0;
  }

  /** Every turn strictly lowers the health in play: the defender always loses at
      least 1 and the attacker never gains. */
  lemma TurnLowersHp(f: Fight, name1: string, name2: string, rng: Rng)
    requires Ongoing(f) && AllFighters(f.side1) && AllFighters(f.side2)
    ensures var g := Turn(f, name1, name2, rng);
      TotalHp(g.side1) + TotalHp(g.side2) < TotalHp(f.side1) + TotalHp(f.side2)
  {
    var c := Choose(f, rng);
    var p1, p2 := f.side1[c.i1], f.side2[c.i2];
    if c.first {
      var x := Exchange(p1, p2, name1, c.critical, rng, c.cursor);
      ExchangeOutcome(p1, p2, name1, c.critical, rng, c.cursor);
      TotalHpUpdate(f.side1, c.i1, x.attacker);
      TotalHpUpdate(f.side2, c.i2, x.defender);
    } else {
      var x := Exchange(p2, p1, name2, c.critical, rng, c.cursor);
      ExchangeOutcome(p2, p1, name2, c.critical, rng, c.cursor);
      TotalHpUpdate(f.side1, c.i1, x.defender);
      TotalHpUpdate(f.side2, c.i2, x.attacker);
    }
  }

  /** The rest of the turn loop from state `f`. It stops with the loop condition
      false, within the turn ceiling, with both rosters worn down, with a living
      member on some side if there was one at the start, and with only well-formed
      events appended to the log. */
  function Resolve(f: Fight, name1: string, name2: string, rng: Rng): (g: Fight)
    requires AllFighters(f.side1) && AllFighters(f.side2)
    ensures !Ongoing(g)
    ensures f.turns <= MaxRounds ==> g.turns <= MaxRounds
    ensures Worn(f.side1, g.side1) && Worn(f.side2, g.side2)
    ensures (Alive(f.side1) || Alive(f.side2)) ==> (Alive(g.side1) || Alive(g.side2))
    ensures f.events <= g.events && f.logs <= g.logs
    ensures WellFormedEvents(f.events) ==> WellFormedEvents(g.events)
    decreases MaxRounds - f.turns
  {
    if Ongoing(f) then
      var t := Turn(f, name1, name2, rng);
      TurnOutcome(f, name1, name2, rng);
      var g := Resolve(t, name1, name2, rng);
      WornTransitive(f.side1, t.side1, g.side1);
      WornTransitive(f.side2, t.side2, g.side2);
      g
    else
      f
  }

  /** With no negative health in play, the loop plays at most as many more turns
      as there are health points left. */
  lemma {:induction false} ResolveWithinHp(f: Fight, name1: string, name2: string, rng: Rng)
    requires AllFighters(f.side1) && AllFighters(f.side2)
    requires NonNegativeHp(f.side1) && NonNegativeHp(f.side2)
    ensures Resolve(f, name1, name2, rng).turns <= f.turns + TotalHp(f.side1) + TotalHp(f.side2)
    decreases MaxRounds - f.turns
  {
    if Ongoing(f) {
      var t := Turn(f, name1, name2, rng);
      TurnOutcome(f, name1, name2, rng);
      TurnLowersHp(f, name1, name2, rng);
      assert NonNegativeHp(t.side1) && NonNegativeHp(t.side2);
      ResolveWithinHp(t, name1, name2, rng);
    } else {
      TotalHpNonNegative(f.side1);
      TotalHpNonNegative(f.side2);
    }
  }

  // ---------------------------------------------------------------------------
  // The battle
  // ---------------------------------------------------------------------------

  datatype Side = Side1 | Side2

  /** The winner once the loop has stopped: at the ceiling, team 1 only with a
      strictly larger summed health (a tie goes to team 2); otherwise the team
      that still has a living member. */
  function Verdict(f: Fight): Side
  {
    if f.turns >= MaxRounds then (if TotalHp(f.side1) > TotalHp(f.side2) then Side1 else Side2)
    else if Alive(f.side1) then Side1 else Side2
  }

  function Opening(team1: Team, team2: Team, cursor: nat): Fight
  {
    Fight(team1.members, team2.members, 0, cursor, [BattleLog(OpeningText(team1.name, team2.name), true)], [])
  }

  /** Everything a battle produces: the final loop state, the log returned to the
      bracket, the summary handed to the recorder, the winning side and the next
      unread draw. */
  datatype BattleReport = BattleReport(fight: Fight, logs: seq<BattleLog>, summary: BattleSummary, winner: Side, cursor: nat)

  function TeamOn(side: Side, team1: Team, team2: Team): Team
  {
    if side == Side1 then team1 else team2
  }

  /** `simulateBattle` as a function of its inputs and the draw stream. */
  function Battle(team1: Team, team2: Team, rng: Rng, cursor: nat): (r: BattleReport)
    requires AllFighters(team1.members) && AllFighters(team2.members)
    ensures |r.logs| > 0
  {
    var f := Resolve(Opening(team1, team2, cursor), team1.name, team2.name, rng);
    var side := Verdict(f);
    var winner := TeamOn(side, team1, team2).name;
    var logs := if f.turns >= MaxRounds then f.logs + [BattleLog(CeilingText(winner), false)] else f.logs;
    BattleReport(f, logs + [BattleLog(WinnerText(winner), true)],
      BattleSummary(TeamRecordOf(team1, f.side1), TeamRecordOf(team2, f.side2), f.events, winner, winner),
      side, f.cursor)
  }

  /** What every battle guarantees: it ends within the turn ceiling, both rosters
      are only worn down (a knocked-out member is never struck again), every recorded
      event is well formed, the log opens with the highlighted match-up line and
      closes with the highlighted winner line, and the summary names the same winner
      twice. */
  lemma BattleOutcome(team1: Team, team2: Team, rng: Rng, cursor: nat)
    requires AllFighters(team1.members) && AllFighters(team2.members)
    ensures var r := Battle(team1, team2, rng, cursor);
      var winner := TeamOn(r.winner, team1, team2).name;
      && r.fight.turns <= MaxRounds
      && Worn(team1.members, r.fight.side1) && Worn(team2.members, r.fight.side2)
      && WellFormedEvents(r.summary.events)
      && r.logs[0] == BattleLog(OpeningText(team1.name, team2.name), true)
      && r.logs[|r.logs| - 1] == BattleLog(WinnerText(winner), true)
      && r.summary.matchWinner == winner && r.summary.teamWinner == winner
      && |r.summary.team1.pokemons| == |team1.members| && |r.summary.team2.pokemons| == |team2.members|
  {
    var start := Opening(team1, team2, cursor);
    var f := Resolve(start, team1.name, team2.name, rng);
    assert start.logs <= f.logs;
  }

  /** Below the ceiling the battle is decided by knockouts: if some member could
      fight at the start, exactly one side still has a living member, that side wins,
      and no ceiling line is logged. */
  lemma BattleDecided(team1: Team, team2: Team, rng: Rng, cursor: nat)
    requires AllFighters(team1.members) && AllFighters(team2.members)
    requires Alive(team1.members) || Alive(team2.members)
    ensures var r := Battle(team1, team2, rng, cursor);
      r.fight.turns < MaxRounds ==>
        && Alive(r.fight.side1) != Alive(r.fight.side2)
        && (r.winner == Side1 <==> Alive(r.fight.side1))
        && r.logs == r.fight.logs + [BattleLog(WinnerText(TeamOn(r.winner, team1, team2).name), true)]
  {
  }

  /** Two rosters with less summed health than the turn ceiling always finish by
      knockout: the ceiling is never reached, exactly one side still stands, that
      side wins, and no ceiling line is logged. */
  lemma BattleEndsByKnockout(team1: Team, team2: Team, rng: Rng, cursor: nat)
    requires AllFighters(team1.members) && AllFighters(team2.members)
    requires NonNegativeHp(team1.members) && NonNegativeHp(team2.members)
    requires Alive(team1.members) || Alive(team2.members)
    requires TotalHp(team1.members) + TotalHp(team2.members) < MaxRounds
    ensures var r := Battle(team1, team2, rng, cursor);
      && r.fight.turns < MaxRounds
      && Alive(r.fight.side1) != Alive(r.fight.side2)
      && (r.winner == Side1 <==> Alive(r.fight.side1))
      && r.logs == r.fight.logs + [BattleLog(WinnerText(TeamOn(r.winner, team1, team2).name), true)]
  {
    ResolveWithinHp(Opening(team1, team2, cursor), team1.name, team2.name, rng);
    BattleDecided(team1, team2, rng, cursor);
  }

  /** At the ceiling both sides may still stand; team 1 wins only with strictly more
      summed health, so a tie goes to team 2, and the ceiling line comes just before
      the winner line. */
  lemma BattleAtCeiling(team1: Team, team2: Team, rng: Rng, cursor: nat)
    requires AllFighters(team1.members) && AllFighters(team2.members)
    ensures var r := Battle(team1, team2, rng, cursor);
      var winner := TeamOn(r.winner, team1, team2).name;
      r.fight.turns == MaxRounds ==>
        && (r.winner == Side1 <==> TotalHp(r.fight.side1) > TotalHp(r.fight.side2))
        && r.logs == r.fight.logs + [BattleLog(CeilingText(winner), false), BattleLog(WinnerText(winner), true)]
  {
  }

  /** A battle in which a side starts with no living member plays no turn: team 1
      wins if it has a living member, and otherwise team 2 is declared the winner,
      even when it has no living member either. */
  lemma BattleWithoutTurns(team1: Team, team2: Team, rng: Rng, cursor: nat)
    requires AllFighters(team1.members) && AllFighters(team2.members)
    requires !Alive(team1.members) || !Alive(team2.members)
    ensures var r := Battle(team1, team2, rng, cursor);
      && r.fight.turns == 0 && r.cursor == cursor && r.summary.events == []
      && (r.winner == Side1 <==> Alive(team1.members))
  {
  }

  /** Members that start at a health in [0, base health] end the battle in that
      range, so every recorded remaining health lies between 0 and the recorded
      starting health. */
  lemma RecordedHealthInRange(team1: Team, team2: Team, rng: Rng, cursor: nat)
    requires AllFighters(team1.members) && AllFighters(team2.members)
    requires forall k :: 0 <= k < |team1.members| ==> 0 <= team1.members[k].currentHp <= team1.members[k].creature.stats.value.hp
    requires forall k :: 0 <= k < |team2.members| ==> 0 <= team2.members[k].currentHp <= team2.members[k].creature.stats.value.hp
    ensures var r := Battle(team1, team2, rng, cursor);
      && (forall k :: 0 <= k < |r.summary.team1.pokemons| ==>
        r.summary.team1.pokemons[k].startingHp.Some? && 0 <= r.summary.team1.pokemons[k].remainingHp <= r.summary.team1.pokemons[k].startingHp.value)
      && (forall k :: 0 <= k < |r.summary.team2.pokemons| ==>
        r.summary.team2.pokemons[k].startingHp.Some? && 0 <= r.summary.team2.pokemons[k].remainingHp <= r.summary.team2.pokemons[k].startingHp.value)
  {
  }

  /** The body of a turn after initiative, on the two chosen combatants: the blow,
      the knockout check (which ends the turn, the source's `continue`) and the
      counter-attack with its own critical roll and knockout check. */
  method Strike(attacker0: Member, defender0: Member, attackerTeam: string, criticalHit: bool, rng: Rng, cursor: nat)
    returns (attacker: Member, defender: Member, logs: seq<BattleLog>, events: seq<BattleEvent>, next: nat)
    requires Fighter(attacker0) && Fighter(defender0)
    requires attacker0.currentHp > 0 && defender0.currentHp > 0
    ensures Blows(attacker, defender, logs, events, next) == Exchange(attacker0, defender0, attackerTeam, criticalHit, rng, cursor)
  {
    attacker, defender, next := attacker0, defender0, cursor;
    var damage := Damage(attacker.creature.stats.value.atk, defender.creature.stats.value.def, criticalHit);
    defender := defender.(currentHp := Hit(defender.currentHp, damage));
    events := [Attack(attacker.creature.name, defender.creature.name, damage, criticalHit)];
    logs := [BattleLog(AttackText(attacker.creature.name, attackerTeam, defender.creature.name, criticalHit, damage), false)];
    if defender.currentHp <= 0 {
      logs := logs + [BattleLog(KoText(defender.creature.name), false)];
      events := events + [KO(defender.creature.name, defender.currentHp)];
      return;
    }
    var counterDamage := Damage(defender.creature.stats.value.atk, attacker.creature.stats.value.def, rng(next) < CriticalHitChance);
    next := next + 1;
    attacker := attacker.(currentHp := Hit(attacker.currentHp, counterDamage));
    events := events + [Counter(defender.creature.name, attacker.creature.name, counterDamage, false)];
    logs := logs + [BattleLog(CounterText(defender.creature.name, counterDamage), false)];
    if attacker.currentHp <= 0 {
      logs := logs + [BattleLog(KoText(attacker.creature.name), false)];
      events := events + [KO(attacker.creature.name, attacker.currentHp)];
    }
  }

  /** The draws at the top of the loop body: the two picks among the living and
      the initiative, then the opener's critical roll. */
  method ChooseCombatants(f: Fight, rng: Rng) returns (c: Choice)
    requires Ongoing(f) && AllFighters(f.side1) && AllFighters(f.side2)
    ensures c == Choose(f, rng)
  {
    var alive1 := Living(f.side1);
    var alive2 := Living(f.side2);
    var next := f.cursor;
    var i1 := alive1[Pick(rng(next), |alive1|)];
    var i2 := alive2[Pick(rng(next + 1), |alive2|)];
    next := next + 2;
    var p1 := f.side1[i1];
    var p2 := f.side2[i2];
    var firstGoesP1 := p1.creature.stats.value.vit > p2.creature.stats.value.vit;
    if p1.creature.stats.value.vit == p2.creature.stats.value.vit {
      firstGoesP1 := rng(next) < 0.5;
      next := next + 1;
    }
    var criticalHit := rng(next) < CriticalHitChance;
    c := Choice(i1, i2, firstGoesP1, criticalHit, next + 1);
  }

  /** One pass of the loop body of `simulateBattle` on the current state. */
  method PlayTurn(f: Fight, name1: string, name2: string, rng: Rng) returns (g: Fight)
    requires Ongoing(f) && AllFighters(f.side1) && AllFighters(f.side2)
    ensures g == Turn(f, name1, name2, rng)
  {
    var c := ChooseCombatants(f, rng);
    var team1Pokemons, team2Pokemons := f.side1, f.side2;
    var attacker, defender, logs, events, next;
    if c.first {
      attacker, defender, logs, events, next := Strike(team1Pokemons[c.i1], team2Pokemons[c.i2], name1, c.critical, rng, c.cursor);
      team1Pokemons := team1Pokemons[c.i1 := attacker];
      team2Pokemons := team2Pokemons[c.i2 := defender];
    } else {
      attacker, defender, logs, events, next := Strike(team2Pokemons[c.i2], team1Pokemons[c.i1], name2, c.critical, rng, c.cursor);
      team1Pokemons := team1Pokemons[c.i1 := defender];
      team2Pokemons := team2Pokemons[c.i2 := attacker];
    }
    g := Fight(team1Pokemons, team2Pokemons, f.turns + 1, next, f.logs + logs, f.events + events);
  }

  /** The turn loop of `simulateBattle`, on copies of the two rosters. */
  method Fighting(team1: Team, team2: Team, rng: Rng, cursor: nat) returns (fight: Fight)
    requires AllFighters(team1.members) && AllFighters(team2.members)
    ensures fight == Resolve(Opening(team1, team2, cursor), team1.name, team2.name, rng)
  {
    fight := Opening(team1, team2, cursor);
    while Ongoing(fight)
      invariant AllFighters(fight.side1) && AllFighters(fight.side2)
      invariant Resolve(fight, team1.name, team2.name, rng) == Resolve(Opening(team1, team2, cursor), team1.name, team2.name, rng)
      decreases MaxRounds - fight.turns
    {
      TurnOutcome(fight, team1.name, team2.name, rng);
      fight := PlayTurn(fight, team1.name, team2.name, rng);
    }
  }

  /** `simulateBattle`: the opening line, the turn loop, the verdict and its log
      lines, and the summary handed to the recorder, reading draws from `cursor` on. */
  method SimulateBattle(team1: Team, team2: Team, rng: Rng, cursor: nat)
    returns (battleLogs: seq<BattleLog>, battleData: BattleSummary, next: nat)
    requires AllFighters(team1.members) && AllFighters(team2.members)
    ensures var r := Battle(team1, team2, rng, cursor);
      battleLogs == r.logs && battleData == r.summary && next == r.cursor
  {
    var fight := Fighting(team1, team2, rng, cursor);
    ghost var r := Battle(team1, team2, rng, cursor);
    var team1Pokemons, team2Pokemons, roundCounter := fight.side1, fight.side2, fight.turns;
    battleLogs, next := fight.logs, fight.cursor;
    var winner: string;
    if roundCounter >= MaxRounds {
      var team1HP := TotalHp(team1Pokemons);
      var team2HP := TotalHp(team2Pokemons);
      winner := if team1HP > team2HP then team1.name else team2.name;
      battleLogs := battleLogs + [BattleLog(CeilingText(winner), false)];
    } else {
      winner := if Alive(team1Pokemons) then team1.name else team2.name;
    }
    assert winner == TeamOn(r.winner, team1, team2).name;
    battleLogs := battleLogs + [BattleLog(WinnerText(winner), true)];
    battleData := BattleSummary(TeamRecordOf(team1, team1Pokemons), TeamRecordOf(team2, team2Pokemons), fight.events, winner, winner);
  }
}
