/** The records both pages work on: a creature as the catalogue serves it, a team
    member (a creature with its current health) and a team. */
module Pokedata {

  datatype Option<T> = None | Some(value: T)

  /** The stat block the engine reads (`spe_atk`/`spe_def` are never read). */
  datatype Stats = Stats(hp: int, atk: int, def: int, vit: int)

  /** A creature record: its pokédex number, its French name (the only name the
      core reads), the names of its types in order (an absent `types` list and an
      empty one behave alike everywhere) and its stats, which may be null. */
  datatype Creature = Creature(pokedexId: int, name: string, types: seq<string>, stats: Option<Stats>)

  /** A creature in a team, with the one field the engine changes. */
  datatype Member = Member(creature: Creature, currentHp: int)

  datatype Team = Team(id: int, name: string, members: seq<Member>)

  /** A member the combat loop can read stats from (`stats!` in the source). */
  predicate Fighter(m: Member)
  {
    m.creature.stats.Some?
  }

  predicate AllFighters(side: seq<Member>)
  {
    forall k :: 0 <= k < |side| ==> Fighter(side[k])
  }

  /** A member at the health its base stat gives it; one without stats is left alone by
      the reset, so it counts as healed. */
  predicate Healthy(m: Member)
  {
    m.creature.stats.Some? ==> m.currentHp == m.creature.stats.value.hp
  }

  /** The health reset applied to a winning team (`if (p.stats) p.currentHp = p.stats.hp`). */
  function Healed(m: Member): (h: Member)
    ensures h.creature == m.creature
    ensures Healthy(h)
    ensures Healthy(m) ==> h == m
  {
    if m.creature.stats.Some? then m.(currentHp := m.creature.stats.value.hp) else m
  }
}
