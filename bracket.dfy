/** The knockout tournament (`simulateTournament` and `getRoundLabel` in
    pages/tournament.tsx).

    Each round pairs the surviving teams by position (0 with 1, 2 with 3, …),
    plays the matches in order, reads each winner back from the last line of the
    battle log, restores the winner's members to full health and sends the
    winners, in match order, to the next round, until one team is left. */
module Bracket {
  import opened Pokedata
  import opened Random
  import opened Combat
  import Text

  // ---------------------------------------------------------------------------
  // Round labels
  // ---------------------------------------------------------------------------

  /** `getRoundLabel`: the title of a bracket column. */
  function RoundLabel(round: int): (title: string)
    ensures |title| > 0
    ensures title[0] == 'R' <==> !(1 <= round <= 5)
  {
    match round
    case 1 => "1/16 Finale"
    case 2 => "1/8 Finale"
    case 3 => "Quart Finale"
    case 4 => "Demi Finale"
    case 5 => "Finale"
    case _ => "Round " + Text.IntToString(round)
  }

  /** Distinct rounds get distinct titles, so no two columns share a title. */
  lemma RoundLabelsDistinct(a: int, b: int)
    requires a != b
    ensures RoundLabel(a) != RoundLabel(b)
  {
    var prefix := "Round ";
    if !(1 <= a <= 5) && !(1 <= b <= 5) {
      if RoundLabel(a) == RoundLabel(b) {
        assert RoundLabel(a)[|prefix|..] == Text.IntToString(a);
        assert RoundLabel(b)[|prefix|..] == Text.IntToString(b);
        Text.IntToStringInjective(a, b);
      }
    } else if !(1 <= a <= 5) {
      assert RoundLabel(a)[0] == 'R' != RoundLabel(b)[0];
    } else if !(1 <= b <= 5) {
      assert RoundLabel(b)[0] == 'R' != RoundLabel(a)[0];
    }
  }

  /** 2^k. */
  function Pow2(k: nat): (p: nat)
    ensures p >= 1
  {
    if k == 0 then 1 else 2 * Pow2(k - 1)
  }

  /** The French name of a knockout stage by its number of matches: the final,
      the semi-finals (`demi`), the quarter-finals, and otherwise the
      "1/n finale" with n matches. */
  function StageName(matches: nat): string
  {
    if matches == 1 then "Finale"
    else if matches == 2 then "Demi Finale"
    else if matches == 4 then "Quart Finale"
    else "1/" + Text.NatToString(matches) + " Finale"
  }

  /** The stage of sixteen matches is the "1/16 Finale". */
  lemma StageNameOfSixteen()
    ensures StageName(16) == "1/16 Finale"
  {
    assert Text.NatToString(16) == Text.NatToString(1) + [Text.DigitChar(6)];
    assert Text.NatToString(16) == "16";
  }

  /** The stage of eight matches is the "1/8 Finale". */
  lemma StageNameOfEight()
    ensures StageName(8) == "1/8 Finale"
  {
    assert Text.NatToString(8) == "8";
  }

  /** The five fixed titles are the stage names of a 32-team bracket: round r of
      it has 2^(5-r) matches. */
  lemma RoundLabelNamesStage(round: int)
    requires 1 <= round <= 5
    ensures RoundLabel(round) == StageName(Pow2(5 - round))
  {
    if round == 1 {
      assert Pow2(4) == 16;
      StageNameOfSixteen();
    } else if round == 2 {
      assert Pow2(3) == 8;
      StageNameOfEight();
    }
  }

  // ---------------------------------------------------------------------------
  // Matches and pairing
  // ---------------------------------------------------------------------------

  /** A bracket match; `winner` is filled in once it is played. */
  datatype Match = Match(team1: Team, team2: Team, winner: Option<Team>)

  /** A bracket column: the round number and its matches in order. */
  datatype Round = Round(round: int, matches: seq<Match>)

  /** The pairing loop of one round: teams 2k and 2k + 1 meet in match k. */
  function Pairings(teams: seq<Team>): (ms: seq<Match>)
    requires |teams| % 2 == 0
    ensures |ms| * 2 == |teams|
    decreases |teams|
  {
    if teams == [] then []
    else Pairings(teams[..|teams| - 2]) + [Match(teams[|teams| - 2], teams[|teams| - 1], None)]
  }

  /** Every team plays exactly one match of the round, against its neighbour, and
      the matches follow the order of the teams. */
  lemma {:induction false} PairingsPositions(teams: seq<Team>)
    requires |teams| % 2 == 0
    ensures forall k :: 0 <= k < |Pairings(teams)| ==>
      Pairings(teams)[k] == Match(teams[2 * k], teams[2 * k + 1], None)
    decreases |teams|
  {
    if teams != [] {
      var init := teams[..|teams| - 2];
      PairingsPositions(init);
      assert forall k :: 0 <= k < |init| ==> init[k] == teams[k];
    }
  }

  /** `for (let i = 0; i < roundTeams.length; i += 2) matches.push({ team1, team2 })`. */
  method PairUp(roundTeams: seq<Team>) returns (matches: seq<Match>)
    requires |roundTeams| % 2 == 0
    ensures matches == Pairings(roundTeams)
  {
    matches := [];
    var i := 0;
    while i < |roundTeams|
      invariant 0 <= i <= |roundTeams| && i % 2 == 0
      invariant matches == Pairings(roundTeams[..i])
    {
      var team1 := roundTeams[i];
      var team2 := roundTeams[i + 1];
      assert roundTeams[..i + 2][..i] == roundTeams[..i];
      matches := matches + [Match(team1, team2, None)];
      i := i + 2;
    }
    assert roundTeams[..i] == roundTeams;
  }

  // ---------------------------------------------------------------------------
  // Reading the winner back
  // ---------------------------------------------------------------------------

  const Separator: string := " remporte "

  /** `lastMessage.split(' remporte ')[0]`. */
  function WinnerName(lastMessage: string): (name: string)
    ensures name <= lastMessage
  {
    Text.SplitHead(lastMessage, Separator)
  }

  /** A team name that the winner line gives back intact. */
  predicate Readable(name: string)
  {
    WinnerName(WinnerText(name)) == name
  }

  /** Reading the winner line back gives the name written into it exactly when the
      separator does not start inside the name (a name ending in " remporte", for
      instance, would be cut short). */
  lemma WinnerNameRecovers(name: string)
    ensures WinnerName(WinnerText(name)) == name <==>
      forall i :: 0 <= i < |name| ==> !Text.OccursAt(WinnerText(name), Separator, i)
  {
    var s := WinnerText(name);
    assert s == name + " remporte le combat!";
    assert Text.OccursAt(s, Separator, |name|);
    if forall i :: 0 <= i < |name| ==> !Text.OccursAt(s, Separator, i) {
      Text.SplitHeadAtBoundary(name, " remporte le combat!", Separator);
    }
  }

  /** A name without the letter r is always read back intact. */
  lemma NameWithoutRRecovers(name: string)
    requires forall k :: 0 <= k < |name| ==> name[k] != 'r'
    ensures WinnerName(WinnerText(name)) == name
  {
    var s := WinnerText(name);
    assert s == name + " remporte le combat!";
    forall i | 0 <= i < |name|
      ensures !Text.OccursAt(s, Separator, i)
    {
      if i + 1 < |name| {
        assert s[i + 1] == name[i + 1];
      } else {
        assert s[i + 1] == ' ';
      }
      assert Separator[1] == 'r';
    }
    WinnerNameRecovers(name);
  }

  /** The match's winner as the bracket reads it: team 1 when the parsed name is
      team 1's name, and team 2 otherwise. */
  function MatchWinner(m: Match, battleLogs: seq<BattleLog>): (winner: Team)
    requires |battleLogs| > 0
    ensures winner == m.team1 || winner == m.team2
  {
    if WinnerName(battleLogs[|battleLogs| - 1].text) == m.team1.name then m.team1 else m.team2
  }

  /** With two distinct names that read back intact, the bracket advances exactly
      the team the battle declared the winner. */
  lemma MatchWinnerIsBattleWinner(team1: Team, team2: Team, rng: Rng, cursor: nat)
    requires AllFighters(team1.members) && AllFighters(team2.members)
    requires team1.name != team2.name
    requires Readable(team1.name)
    requires Readable(team2.name)
    ensures var r := Battle(team1, team2, rng, cursor);
      MatchWinner(Match(team1, team2, None), r.logs) == TeamOn(r.winner, team1, team2)
  {
    BattleOutcome(team1, team2, rng, cursor);
  }

  // ---------------------------------------------------------------------------
  // The health reset of a winner
  // ---------------------------------------------------------------------------

  predicate AllHealthy(members: seq<Member>)
  {
    forall k :: 0 <= k < |members| ==> Healthy(members[k])
  }

  /** A team the engine can field at the start of a battle: every member has
      stats and is at full health. */
  predicate Ready(t: Team)
  {
    AllFighters(t.members) && AllHealthy(t.members)
  }

  predicate AllReady(teams: seq<Team>)
  {
    forall k :: 0 <= k < |teams| ==> Ready(teams[k])
  }

  /** The winner after `winner.pokemons.forEach(p => { if (p.stats) p.currentHp = p.stats.hp })`:
      same id, name and creatures, every member at full health, and a team that
      was already at full health is left as it was. */
  function Restored(t: Team): (r: Team)
    ensures r.id == t.id && r.name == t.name && |r.members| == |t.members|
    ensures forall k :: 0 <= k < |t.members| ==> r.members[k].creature == t.members[k].creature
    ensures forall k :: 0 <= k < |t.members| ==> r.members[k] == Healed(t.members[k])
    ensures AllHealthy(r.members)
    ensures AllHealthy(t.members) ==> r == t
  {
    var members := seq(|t.members|, k requires 0 <= k < |t.members| => Healed(t.members[k]));
    assert AllHealthy(t.members) ==> members == t.members;
    t.(members := members)
  }

  /** The reset loop over the winner's members. */
  method RestoreHealth(winner: Team) returns (restored: Team)
    ensures restored == Restored(winner)
  {
    var pokemons := winner.members;
    for k := 0 to |pokemons|
      invariant |pokemons| == |winner.members|
      invariant forall j :: 0 <= j < k ==> pokemons[j] == Healed(winner.members[j])
      invariant forall j :: k <= j < |pokemons| ==> pokemons[j] == winner.members[j]
    {
      var p := pokemons[k];
      if p.creature.stats.Some? {
        pokemons := pokemons[k := p.(currentHp := p.creature.stats.value.hp)];
      }
    }
    restored := winner.(members := pokemons);
    assert restored.members == Restored(winner).members;
  }

  // ---------------------------------------------------------------------------
  // The battle engine as the bracket sees it
  // ---------------------------------------------------------------------------

  /** A battle engine: the report of a battle between two teams that starts
      reading draws at the given index. The bracket is stated for any engine;
      `Simulates` ties one to `simulateBattle`. */
  type Referee = (Team, Team, nat) -> BattleReport

  /** Every battle logs at least one line, so there is a last line to read the
      winner from. */
  ghost predicate Sound(play: Referee)
  {
    forall t1: Team, t2: Team, c: nat :: |play(t1, t2, c).logs| > 0
  }

  /** `play` logs at least one line for every battle and reports, for every two
      ready teams, what `simulateBattle` does on the draw stream `rng`. */
  ghost predicate Simulates(play: Referee, rng: Rng)
  {
    && Sound(play)
    && forall t1: Team, t2: Team, c: nat {:trigger Battle(t1, t2, rng, c)} ::
      Ready(t1) && Ready(t2) ==> play(t1, t2, c) == Battle(t1, t2, rng, c)
  }

  /** `simulateBattle` on the stream `rng`, as an engine (teams the engine cannot
      field are never passed to it; they get the battle of two empty teams). */
  function Engine(rng: Rng): (play: Referee)
  {
    (t1: Team, t2: Team, c: nat) =>
      if AllFighters(t1.members) && AllFighters(t2.members) then Battle(t1, t2, rng, c)
      else Battle(Team(0, "", []), Team(0, "", []), rng, c)
  }

  lemma EngineSimulates(rng: Rng)
    ensures Simulates(Engine(rng), rng)
  {
    var play := Engine(rng);
    forall t1: Team, t2: Team, c: nat
      ensures |play(t1, t2, c).logs| > 0
    {
      if AllFighters(t1.members) && AllFighters(t2.members) {
        var r := Battle(t1, t2, rng, c);
      } else {
        var r := Battle(Team(0, "", []), Team(0, "", []), rng, c);
      }
    }
  }

  // ---------------------------------------------------------------------------
  // One round
  // ---------------------------------------------------------------------------

  predicate ReadyMatches(ms: seq<Match>)
  {
    forall k :: 0 <= k < |ms| ==> Ready(ms[k].team1) && Ready(ms[k].team2)
  }

  /** What playing a round's matches produces: the matches with their winners, the
      winners in match order, the battle logs in match order, and the next unread
      draw. */
  datatype RoundPlay = RoundPlay(matches: seq<Match>, winners: seq<Team>, logs: seq<BattleLog>, cursor: nat)

  /** The match loop of a round. */
  function PlayMatches(ms: seq<Match>, play: Referee, cursor: nat): (p: RoundPlay)
    requires Sound(play)
    ensures |p.matches| == |ms| && |p.winners| == |ms|
    decreases |ms|
  {
    if ms == [] then RoundPlay([], [], [], cursor)
    else
      var prev := PlayMatches(ms[..|ms| - 1], play, cursor);
      var m := ms[|ms| - 1];
      var battle := play(m.team1, m.team2, prev.cursor);
      var winner := Restored(MatchWinner(m, battle.logs));
      RoundPlay(prev.matches + [m.(winner := Some(winner))], prev.winners + [winner], prev.logs + battle.logs, battle.cursor)
  }

  /** Playing a round keeps every match's two teams, records in it the team that
      advances, and that team is one of the two, unchanged (teams at full health
      are not altered by the reset), so every winner is ready for the next round. */
  lemma {:induction false} PlayMatchesOutcome(ms: seq<Match>, play: Referee, cursor: nat)
    requires ReadyMatches(ms) && Sound(play)
    ensures var p := PlayMatches(ms, play, cursor);
      && AllReady(p.winners)
      && forall k :: 0 <= k < |ms| ==>
        && p.matches[k] == Match(ms[k].team1, ms[k].team2, Some(p.winners[k]))
        && (p.winners[k] == ms[k].team1 || p.winners[k] == ms[k].team2)
    decreases |ms|
  {
    if ms != [] {
      var init := ms[..|ms| - 1];
      assert ReadyMatches(init);
      PlayMatchesOutcome(init, play, cursor);
    }
  }

  /** Two referees that both play `simulateBattle` on the stream `rng` play a
      round of ready matches alike. */
  lemma {:induction false} PlayMatchesAgree(ms: seq<Match>, play1: Referee, play2: Referee, rng: Rng, cursor: nat)
    requires ReadyMatches(ms) && Simulates(play1, rng) && Simulates(play2, rng)
    ensures PlayMatches(ms, play1, cursor) == PlayMatches(ms, play2, cursor)
    decreases |ms|
  {
    if ms != [] {
      var init := ms[..|ms| - 1];
      var m := ms[|ms| - 1];
      assert ReadyMatches(init);
      PlayMatchesAgree(init, play1, play2, rng, cursor);
      var c := PlayMatches(init, play1, cursor).cursor;
      assert play1(m.team1, m.team2, c) == Battle(m.team1, m.team2, rng, c) == play2(m.team1, m.team2, c);
    }
  }

  /** The first k matches are played as a round of their own would be, so match k
      is decided by the battle that starts where the battles of the first k matches
      stopped reading draws, and its log lines follow theirs. */
  lemma {:induction false} PlayMatchesPrefix(ms: seq<Match>, play: Referee, cursor: nat, k: nat)
    requires Sound(play) && k < |ms|
    ensures var before := PlayMatches(ms[..k], play, cursor);
      var p := PlayMatches(ms, play, cursor);
      var battle := play(ms[k].team1, ms[k].team2, before.cursor);
      && p.matches[..k] == before.matches
      && p.winners[k] == Restored(MatchWinner(ms[k], battle.logs))
      && before.logs + battle.logs <= p.logs
    decreases |ms|
  {
    var init := ms[..|ms| - 1];
    if k < |ms| - 1 {
      assert init[..k] == ms[..k];
      PlayMatchesPrefix(init, play, cursor, k);
    } else {
      assert init == ms[..k];
    }
  }

  /** Match k of a round playing `simulateBattle`: when its two teams have distinct
      names that read back intact, the team sent on is the team the battle declared
      the winner, and that battle reads draws from where the battles of the first
      k matches stopped. */
  lemma RoundFollowsBattles(ms: seq<Match>, play: Referee, rng: Rng, cursor: nat, k: nat)
    requires ReadyMatches(ms) && Simulates(play, rng) && k < |ms|
    requires ms[k].team1.name != ms[k].team2.name && Readable(ms[k].team1.name) && Readable(ms[k].team2.name)
    ensures PlayMatches(ms, play, cursor).winners[k] ==
      TeamOn(Battle(ms[k].team1, ms[k].team2, rng, PlayMatches(ms[..k], play, cursor).cursor).winner, ms[k].team1, ms[k].team2)
  {
    var t1, t2 := ms[k].team1, ms[k].team2;
    var c := PlayMatches(ms[..k], play, cursor).cursor;
    var r := Battle(t1, t2, rng, c);
    assert play(t1, t2, c) == r;
    PlayMatchesPrefix(ms, play, cursor, k);
    MatchWinnerIsBattleWinner(t1, t2, rng, c);
    assert MatchWinner(ms[k], r.logs) == MatchWinner(Match(t1, t2, None), r.logs);
  }

  /** One pass of the match loop: the battle, the winner read back from its last
      line and restored to full health. */
  method PlayMatch(current: Match, rng: Rng, cursor: nat, ghost play: Referee)
    returns (winner: Team, battleLog: seq<BattleLog>, next: nat)
    requires Ready(current.team1) && Ready(current.team2) && Simulates(play, rng)
    ensures var battle := play(current.team1, current.team2, cursor);
      && |battle.logs| > 0
      && battleLog == battle.logs && next == battle.cursor
      && winner == Restored(MatchWinner(current, battle.logs))
  {
    var battleData;
    battleLog, battleData, next := SimulateBattle(current.team1, current.team2, rng, cursor);
    var lastMessage := battleLog[|battleLog| - 1].text;
    var winnerName := WinnerName(lastMessage);
    winner := if winnerName == current.team1.name then current.team1 else current.team2;
    winner := RestoreHealth(winner);
  }

  /** The second loop of a round: each match is simulated in order, its logs are
      appended, its winner is recorded in it and pushed to the next round. */
  method PlayRound(matches0: seq<Match>, rng: Rng, cursor: nat, ghost play: Referee)
    returns (matches: seq<Match>, nextRoundTeams: seq<Team>, logs: seq<BattleLog>, next: nat)
    requires ReadyMatches(matches0) && Simulates(play, rng)
    ensures RoundPlay(matches, nextRoundTeams, logs, next) == PlayMatches(matches0, play, cursor)
  {
    matches, nextRoundTeams, logs, next := matches0, [], [], cursor;
    for i := 0 to |matches0|
      invariant |matches| == |matches0|
      invariant forall k :: i <= k < |matches0| ==> matches[k] == matches0[k]
      invariant RoundPlay(matches[..i], nextRoundTeams, logs, next) == PlayMatches(matches0[..i], play, cursor)
    {
      var current := matches[i];
      assert current == matches0[i];
      assert Ready(current.team1) && Ready(current.team2);
      var winner, battleLog;
      winner, battleLog, next := PlayMatch(current, rng, next, play);
      logs := logs + battleLog;
      matches := matches[i := current.(winner := Some(winner))];
      nextRoundTeams := nextRoundTeams + [winner];
      assert matches0[..i + 1][..i] == matches0[..i];
      assert matches[..i + 1] == matches[..i] + [current.(winner := Some(winner))];
    }
    assert matches[..|matches0|] == matches;
    assert matches0[..|matches0|] == matches0;
  }
}
