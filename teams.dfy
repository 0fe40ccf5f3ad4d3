/** Team generation (`generateTeams` in pages/tournament.tsx): keep the creatures
    with usable stats, shuffle them with Fisher–Yates and cut 32 teams of 6. */
module TeamFactory {
  import opened Pokedata
  import opened Random
  import opened Seqs
  import Text

  const TeamCount: nat := 32
  const RosterSize: nat := 6

  /** The message logged when the pool is too small. */
  const NotEnoughPokemons: string :=
    "Pas assez de Pok\U{E9}mon avec des stats valides pour g\U{E9}n\U{E9}rer 32 \U{E9}quipes."

  /** `p.stats && p.stats.hp > 0`. */
  predicate Eligible(p: Creature)
  {
    p.stats.Some? && p.stats.value.hp > 0
  }

  predicate AllEligible(cs: seq<Creature>)
  {
    forall k :: 0 <= k < |cs| ==> Eligible(cs[k])
  }

  /** `pokemons.filter(p => p.stats && p.stats.hp > 0)`. */
  function ValidPokemons(pokemons: seq<Creature>): (valid: seq<Creature>)
    ensures AllEligible(valid)
    ensures |valid| <= |pokemons|
    ensures forall k :: 0 <= k < |pokemons| && Eligible(pokemons[k]) ==> pokemons[k] in valid
    ensures forall k :: 0 <= k < |valid| ==> valid[k] in pokemons
    ensures forall x {:trigger multiset(valid)[x]} :: multiset(valid)[x] == if Eligible(x) then multiset(pokemons)[x] else 0
  {
    Filter(pokemons, Eligible)
  }

  /** `[s[i], s[j]] = [s[j], s[i]]`. */
  function Swap<T>(s: seq<T>, i: nat, j: nat): (r: seq<T>)
    requires i < |s| && j < |s|
    ensures |r| == |s| && r[i] == s[j] && r[j] == s[i]
    ensures forall k :: 0 <= k < |s| && k != i && k != j ==> r[k] == s[k]
  {
    s[i := s[j]][j := s[i]]
  }

  lemma SwapPermutes<T>(s: seq<T>, i: nat, j: nat)
    requires i < |s| && j < |s|
    ensures multiset(Swap(s, i, j)) == multiset(s)
  {
  }

  /** The Fisher–Yates loop from index `i` down to 1: step `i` reads one draw, picks
      `j = floor(draw * (i + 1))` and swaps positions `i` and `j`. */
  function FisherYatesFrom<T>(s: seq<T>, i: int, rng: Rng, cursor: nat): (r: seq<T>)
    requires i < |s|
    ensures |r| == |s|
    decreases i
  {
    if i <= 0 then s
    else FisherYatesFrom(Swap(s, i, Pick(rng(cursor), i + 1)), i - 1, rng, cursor + 1)
  }

  function Shuffled<T>(s: seq<T>, rng: Rng, cursor: nat): (r: seq<T>)
    ensures |r| == |s|
  {
    FisherYatesFrom(s, |s| - 1, rng, cursor)
  }

  /** The Fisher–Yates loop only moves elements around: whatever the draws, its
      result is a permutation of its input. */
  lemma {:induction false} FisherYatesPermutes<T>(s: seq<T>, i: int, rng: Rng, cursor: nat)
    requires i < |s|
    ensures multiset(FisherYatesFrom(s, i, rng, cursor)) == multiset(s)
    decreases i
  {
    if i > 0 {
      var j := Pick(rng(cursor), i + 1);
      SwapPermutes(s, i, j);
      FisherYatesPermutes(Swap(s, i, j), i - 1, rng, cursor + 1);
    }
  }

  /** `[a[i], a[j]] = [a[j], a[i]]` on the array. */
  method SwapInPlace<T>(a: array<T>, i: nat, j: nat)
    requires i < a.Length && j < a.Length
    modifies a
    ensures a[..] == Swap(old(a[..]), i, j)
  {
    a[i], a[j] := a[j], a[i];
  }

  /** The in-place shuffle of `shuffled`, reading `a.Length - 1` draws. */
  method Shuffle<T>(a: array<T>, rng: Rng, cursor: nat) returns (next: nat)
    modifies a
    ensures a[..] == Shuffled(old(a[..]), rng, cursor)
    ensures next == cursor + (if a.Length > 0 then a.Length - 1 else 0)
  {
    var i := a.Length - 1;
    next := cursor;
    while i > 0
      invariant -1 <= i < a.Length
      invariant a.Length > 0 ==> 0 <= i
      invariant next + i == cursor + a.Length - 1
      invariant FisherYatesFrom(a[..], i, rng, next) == Shuffled(old(a[..]), rng, cursor)
    {
      var j := Pick(rng(next), i + 1);
      SwapInPlace(a, i, j);
      next := next + 1;
      i := i - 1;
    }
  }

  /** The shuffled pool: a permutation of the eligible creatures, so all of its
      entries are eligible. */
  function ShuffledPool(valid: seq<Creature>, rng: Rng, cursor: nat): (r: seq<Creature>)
    requires AllEligible(valid)
    ensures multiset(r) == multiset(valid)
    ensures |r| == |valid|
    ensures AllEligible(r)
  {
    FisherYatesPermutes(valid, |valid| - 1, rng, cursor);
    var r := Shuffled(valid, rng, cursor);
    assert forall k :: 0 <= k < |r| ==> r[k] in multiset(valid);
    r
  }

  /** `Équipe ${n}`. */
  function TeamName(n: nat): string
  {
    "\U{C9}quipe " + Text.NatToString(n)
  }

  /** Distinct ordinals give distinct team names. */
  lemma TeamNamesDistinct(a: nat, b: nat)
    requires TeamName(a) == TeamName(b)
    ensures a == b
  {
    var prefix := "\U{C9}quipe ";
    assert TeamName(a)[|prefix|..] == Text.NatToString(a);
    assert TeamName(b)[|prefix|..] == Text.NatToString(b);
    Text.NatToStringInjective(a, b);
  }

  /** `slice.map(p => ({ ...p, currentHp: p.stats!.hp }))`. */
  function Muster(cs: seq<Creature>): (ms: seq<Member>)
    requires AllEligible(cs)
    ensures |ms| == |cs|
    ensures forall k :: 0 <= k < |cs| ==>
      ms[k].creature == cs[k] && Fighter(ms[k]) && Healthy(ms[k]) && ms[k].currentHp > 0
  {
    seq(|cs|, k requires 0 <= k < |cs| => Member(cs[k], cs[k].stats.value.hp))
  }

  /** Team `i` (0-based) holds the shuffled entries `[6i, 6i + 6)`. */
  function TeamAt(shuffled: seq<Creature>, i: nat): Team
    requires (i + 1) * RosterSize <= |shuffled| && AllEligible(shuffled)
  {
    Team(i + 1, TeamName(i + 1), Muster(shuffled[i * RosterSize .. i * RosterSize + RosterSize]))
  }

  /** The team-building loop after `n` passes: team `i + 1` is pushed on pass `i`. */
  function FormTeamsUpTo(shuffled: seq<Creature>, n: nat): (teams: seq<Team>)
    requires n * RosterSize <= |shuffled| && AllEligible(shuffled)
    ensures |teams| == n
  {
    if n == 0 then [] else FormTeamsUpTo(shuffled, n - 1) + [TeamAt(shuffled, n - 1)]
  }

  /** The 32 teams cut from the shuffled pool. */
  function FormTeams(shuffled: seq<Creature>): (teams: seq<Team>)
    requires TeamCount * RosterSize <= |shuffled| && AllEligible(shuffled)
    ensures |teams| == TeamCount
  {
    FormTeamsUpTo(shuffled, TeamCount)
  }

  /** Pass `i` of the loop builds team `i`, and later passes leave it alone. */
  lemma {:induction false} FormTeamsUpToAt(shuffled: seq<Creature>, n: nat)
    requires n * RosterSize <= |shuffled| && AllEligible(shuffled)
    ensures forall i :: 0 <= i < n ==> FormTeamsUpTo(shuffled, n)[i] == TeamAt(shuffled, i)
  {
    if n > 0 {
      FormTeamsUpToAt(shuffled, n - 1);
    }
  }

  /** `generateTeams` up to the hand-over to the tournament: `None` when fewer than
      32 × 6 creatures are eligible (no team is built and no draw is read); otherwise
      the eligible creatures are shuffled in place and cut into 32 teams. */
  method GenerateTeams(pokemons: seq<Creature>, rng: Rng, cursor: nat)
    returns (teams: Option<seq<Team>>, next: nat)
    ensures var valid := ValidPokemons(pokemons);
      if |valid| < TeamCount * RosterSize then teams == None && next == cursor
      else
        && teams == Some(FormTeams(ShuffledPool(valid, rng, cursor)))
        && next == cursor + |valid| - 1
  {
    var validPokemons := ValidPokemons(pokemons);
    if |validPokemons| < TeamCount * RosterSize {
      return None, cursor;
    }
    var shuffled := new Creature[|validPokemons|](k requires 0 <= k < |validPokemons| => validPokemons[k]);
    assert shuffled[..] == validPokemons;
    next := Shuffle(shuffled, rng, cursor);
    assert shuffled[..] == ShuffledPool(validPokemons, rng, cursor);
    var teamsArray: seq<Team> := [];
    for i := 0 to TeamCount
      invariant teamsArray == FormTeamsUpTo(shuffled[..], i)
    {
      assert shuffled[i * RosterSize .. i * RosterSize + RosterSize] == shuffled[..][i * RosterSize .. i * RosterSize + RosterSize];
      var teamPokemon := Muster(shuffled[i * RosterSize .. i * RosterSize + RosterSize]);
      assert teamPokemon == TeamAt(shuffled[..], i).members;
      teamsArray := teamsArray + [Team(i + 1, TeamName(i + 1), teamPokemon)];
    }
    assert teamsArray == FormTeams(ShuffledPool(validPokemons, rng, cursor));
    teams := Some(teamsArray);
  }

  /** Creatures of the members of a list of teams, team after team. */
  function Roster(teams: seq<Team>): seq<Creature>
    decreases |teams|
  {
    if teams == [] then []
    else Roster(teams[..|teams| - 1]) + seq(|teams[|teams| - 1].members|, k requires 0 <= k < |teams[|teams| - 1].members| => teams[|teams| - 1].members[k].creature)
  }

  /** The first `n` teams hold exactly the first `6n` shuffled entries, in order:
      the slices are contiguous and do not overlap. */
  lemma {:induction false} FormTeamsPrefix(shuffled: seq<Creature>, n: nat)
    requires n * RosterSize <= |shuffled| && AllEligible(shuffled)
    ensures Roster(FormTeamsUpTo(shuffled, n)) == shuffled[..n * RosterSize]
  {
    if n > 0 {
      var ts := FormTeamsUpTo(shuffled, n);
      assert ts[..n - 1] == FormTeamsUpTo(shuffled, n - 1);
      FormTeamsPrefix(shuffled, n - 1);
      assert shuffled[..n * RosterSize] == shuffled[..(n - 1) * RosterSize] + shuffled[(n - 1) * RosterSize .. n * RosterSize];
    }
  }

  /** The 32 formed teams: ids and names by position, six members each, member
      k of team i the shuffled entry 6i + k at full health; together the first
      192 shuffled entries. */
  lemma FormTeamsLayout(shuffled: seq<Creature>)
    requires TeamCount * RosterSize <= |shuffled| && AllEligible(shuffled)
    ensures |FormTeams(shuffled)| == TeamCount
    ensures Roster(FormTeams(shuffled)) == shuffled[..TeamCount * RosterSize]
    ensures forall i :: 0 <= i < TeamCount ==>
      && FormTeams(shuffled)[i].id == i + 1
      && FormTeams(shuffled)[i].name == TeamName(i + 1)
      && |FormTeams(shuffled)[i].members| == RosterSize
      && forall k :: 0 <= k < RosterSize ==>
        && FormTeams(shuffled)[i].members[k].creature == shuffled[i * RosterSize + k]
        && Eligible(FormTeams(shuffled)[i].members[k].creature)
        && FormTeams(shuffled)[i].members[k].currentHp == FormTeams(shuffled)[i].members[k].creature.stats.value.hp
  {
    FormTeamsPrefix(shuffled, TeamCount);
    FormTeamsUpToAt(shuffled, TeamCount);
  }

  /** What `generateTeams` builds when the pool is large enough: 32 teams with
      ids 1..32 and names `Équipe 1`..`Équipe 32`, six members each, every member
      an eligible creature at full health, and the 32 rosters together are the
      first 192 entries of a permutation of the eligible creatures. */
  lemma GeneratedTeams(pokemons: seq<Creature>, rng: Rng, cursor: nat)
    requires |ValidPokemons(pokemons)| >= TeamCount * RosterSize
    ensures var valid := ValidPokemons(pokemons);
      var shuffled := ShuffledPool(valid, rng, cursor);
      var teams := FormTeams(shuffled);
      && multiset(shuffled) == multiset(valid)
      && |teams| == TeamCount
      && Roster(teams) == shuffled[..TeamCount * RosterSize]
      && multiset(Roster(teams)) <= multiset(valid)
      && forall i :: 0 <= i < TeamCount ==>
        && teams[i].id == i + 1
        && teams[i].name == TeamName(i + 1)
        && |teams[i].members| == RosterSize
        && forall k :: 0 <= k < RosterSize ==>
          && teams[i].members[k].creature == shuffled[i * RosterSize + k]
          && Eligible(teams[i].members[k].creature)
          && teams[i].members[k].currentHp == teams[i].members[k].creature.stats.value.hp
  {
    var valid := ValidPokemons(pokemons);
    var shuffled := ShuffledPool(valid, rng, cursor);
    var n := TeamCount * RosterSize;
    FormTeamsLayout(shuffled);
    assert shuffled == shuffled[..n] + shuffled[n..];
    assert multiset(shuffled) == multiset(shuffled[..n]) + multiset(shuffled[n..]);
  }
}
