/** The round loop of `simulateTournament` in pages/tournament.tsx: rounds are
    played until one team is left, and the bracket columns, the log and the
    champion are collected on the way. */
module Knockout {
  import opened Pokedata
  import opened Random
  import opened Combat
  import opened Bracket
  import Text
  import Seqs

  /** A field that halves evenly down to one team. */
  predicate IsPow2(n: nat)
    decreases n
  {
    n == 1 || (n > 1 && n % 2 == 0 && IsPow2(n / 2))
  }

  /** The number of rounds a field of `n` teams plays. */
  function RoundCount(n: nat): (r: nat)
    requires IsPow2(n)
    ensures Pow2(r) == n
    decreases n
  {
    if n == 1 then 0 else 1 + RoundCount(n / 2)
  }

  /** The `--- ROUND n ---` line that opens a round in the log. */
  function RoundHeader(round: int): BattleLog
  {
    BattleLog("--- ROUND " + Text.IntToString(round) + " ---", true)
  }

  /** The line that closes the tournament. */
  function ChampionLine(name: string): BattleLog
  {
    BattleLog("\U{1F3C6} VAINQUEUR DU TOURNOI: " + name + " \U{1F3C6}", true)
  }

  /** Everything a tournament produces: the bracket columns, the champion, the
      log lines and the next unread draw. */
  datatype Tournament = Tournament(bracket: seq<Round>, champion: Team, logs: seq<BattleLog>, cursor: nat)

  /** The round loop from round `round` on, with `roundTeams` still in: each round
      pairs the field by position, plays the matches and sends the winners on, until
      one team is left; its columns, its log lines and the champion. */
  function Finish(roundTeams: seq<Team>, round: int, play: Referee, cursor: nat): Tournament
    requires IsPow2(|roundTeams|) && Sound(play)
    decreases |roundTeams|
  {
    if |roundTeams| == 1 then Tournament([], roundTeams[0], [ChampionLine(roundTeams[0].name)], cursor)
    else
      var p := PlayMatches(Pairings(roundTeams), play, cursor);
      var rest := Finish(p.winners, round + 1, play, p.cursor);
      Tournament([Round(round, p.matches)] + rest.bracket, rest.champion, [RoundHeader(round)] + p.logs + rest.logs, rest.cursor)
  }

  /** Round `r` opens on `teams`: its match k pairs teams 2k and 2k + 1. */
  predicate Opens(teams: seq<Team>, r: Round)
  {
    && |r.matches| * 2 == |teams|
    && forall k :: 0 <= k < |r.matches| ==> r.matches[k].team1 == teams[2 * k] && r.matches[k].team2 == teams[2 * k + 1]
  }

  /** Round `r2` is played by the winners of round `r1`, in match order. */
  predicate Feeds(r1: Round, r2: Round)
  {
    && |r2.matches| * 2 == |r1.matches|
    && forall k :: 0 <= k < |r2.matches| ==>
      r1.matches[2 * k].winner == Some(r2.matches[k].team1) && r1.matches[2 * k + 1].winner == Some(r2.matches[k].team2)
  }

  /** Every match of `r` has a winner, and it is one of its two teams. */
  predicate Decided(r: Round)
  {
    forall k :: 0 <= k < |r.matches| ==>
      r.matches[k].winner == Some(r.matches[k].team1) || r.matches[k].winner == Some(r.matches[k].team2)
  }

  /** Column j carries round number `round + j`. */
  predicate Numbered(bracket: seq<Round>, round: int)
  {
    forall j :: 0 <= j < |bracket| ==> bracket[j].round == round + j
  }

  predicate AllDecided(bracket: seq<Round>)
  {
    forall j :: 0 <= j < |bracket| ==> Decided(bracket[j])
  }

  /** Each column is played by the winners of the one before it. */
  predicate Chained(bracket: seq<Round>)
  {
    forall j :: 0 <= j < |bracket| - 1 ==> Feeds(bracket[j], bracket[j + 1])
  }

  /** The last column is a single match, won by `champion`. */
  predicate Crowns(bracket: seq<Round>, champion: Team)
  {
    |bracket| > 0 && |bracket[|bracket| - 1].matches| == 1 && bracket[|bracket| - 1].matches[0].winner == Some(champion)
  }

  /** The log ends with the trophy line naming the champion. */
  predicate ClosesWithChampion(t: Tournament)
  {
    |t.logs| > 0 && t.logs[|t.logs| - 1] == ChampionLine(t.champion.name)
  }

  lemma RoundCountHalf(n: nat)
    requires IsPow2(n) && n > 1
    ensures IsPow2(n / 2) && RoundCount(n) == RoundCount(n / 2) + 1
  {
  }

  /** What one round hands on: the field halves, match k pairs teams 2k and 2k + 1
      and is won by the k-th team sent on, which is one of those two, ready. */
  predicate Advances(roundTeams: seq<Team>, p: RoundPlay)
  {
    && |p.winners| * 2 == |roundTeams| && |p.matches| == |p.winners|
    && AllReady(p.winners)
    && (forall k :: 0 <= k < |p.matches| ==> p.matches[k].team1 == roundTeams[2 * k] && p.matches[k].team2 == roundTeams[2 * k + 1])
    && (forall k :: 0 <= k < |p.winners| ==> p.matches[k].winner == Some(p.winners[k]))
    && (forall k :: 0 <= k < |p.winners| ==> p.winners[k] == roundTeams[2 * k] || p.winners[k] == roundTeams[2 * k + 1])
  }

  /** Pairing ready teams gives matches between ready teams. */
  lemma PairingsReady(roundTeams: seq<Team>)
    requires |roundTeams| % 2 == 0 && AllReady(roundTeams)
    ensures ReadyMatches(Pairings(roundTeams))
  {
    var ms := Pairings(roundTeams);
    PairingsPositions(roundTeams);
    forall k | 0 <= k < |ms|
      ensures Ready(ms[k].team1) && Ready(ms[k].team2)
    {
      assert ms[k] == Match(roundTeams[2 * k], roundTeams[2 * k + 1], None);
    }
  }

  lemma RoundAdvances(roundTeams: seq<Team>, play: Referee, cursor: nat)
    requires |roundTeams| % 2 == 0 && AllReady(roundTeams) && Sound(play)
    ensures Advances(roundTeams, PlayMatches(Pairings(roundTeams), play, cursor))
  {
    PairingsPositions(roundTeams);
    PairingsReady(roundTeams);
    PlayMatchesOutcome(Pairings(roundTeams), play, cursor);
  }

  /** The teams that advance from a round are teams of that round. */
  lemma Advancers(roundTeams: seq<Team>, play: Referee, cursor: nat)
    requires |roundTeams| % 2 == 0 && AllReady(roundTeams) && Sound(play)
    ensures forall w :: w in PlayMatches(Pairings(roundTeams), play, cursor).winners ==> w in roundTeams
  {
    var p := PlayMatches(Pairings(roundTeams), play, cursor);
    RoundAdvances(roundTeams, play, cursor);
    forall w | w in p.winners
      ensures w in roundTeams
    {
      var k :| 0 <= k < |p.winners| && p.winners[k] == w;
    }
  }

  /** A round whose winners, in match order, open the next round feeds it. */
  lemma OpensFeeds(r1: Round, winners: seq<Team>, r2: Round)
    requires |r1.matches| == |winners|
    requires forall k :: 0 <= k < |winners| ==> r1.matches[k].winner == Some(winners[k])
    requires Opens(winners, r2)
    ensures Feeds(r1, r2)
  {
  }

  /** The shape of the bracket: a field of 2^d teams plays d rounds, numbered on
      from `round`. */
  lemma {:induction false} FinishShape(roundTeams: seq<Team>, round: int, play: Referee, cursor: nat)
    requires IsPow2(|roundTeams|) && Sound(play)
    ensures |Finish(roundTeams, round, play, cursor).bracket| == RoundCount(|roundTeams|)
    ensures Numbered(Finish(roundTeams, round, play, cursor).bracket, round)
    decreases |roundTeams|
  {
    if |roundTeams| > 1 {
      var p := PlayMatches(Pairings(roundTeams), play, cursor);
      RoundCountHalf(|roundTeams|);
      FinishShape(p.winners, round + 1, play, p.cursor);
      NumberedCons(Round(round, p.matches), Finish(p.winners, round + 1, play, p.cursor).bracket, round);
    }
  }

  /** Column `round` in front of columns numbered from `round + 1`. */
  lemma NumberedCons(r: Round, rest: seq<Round>, round: int)
    requires r.round == round && Numbered(rest, round + 1)
    ensures Numbered([r] + rest, round)
  {
    forall j | 0 <= j < |[r] + rest|
      ensures ([r] + rest)[j].round == round + j
    {
      if j > 0 {
        assert ([r] + rest)[j] == rest[j - 1];
      }
    }
  }

  /** The tournament's last log line names the champion. */
  lemma {:induction false} FinishLog(roundTeams: seq<Team>, round: int, play: Referee, cursor: nat)
    requires IsPow2(|roundTeams|) && Sound(play)
    ensures ClosesWithChampion(Finish(roundTeams, round, play, cursor))
    decreases |roundTeams|
  {
    if |roundTeams| > 1 {
      var p := PlayMatches(Pairings(roundTeams), play, cursor);
      RoundCountHalf(|roundTeams|);
      FinishLog(p.winners, round + 1, play, p.cursor);
    }
  }

  /** The champion is one of the teams still in; a field of one team plays no
      round. */
  lemma {:induction false} FinishChampion(roundTeams: seq<Team>, round: int, play: Referee, cursor: nat)
    requires IsPow2(|roundTeams|) && AllReady(roundTeams) && Sound(play)
    ensures Finish(roundTeams, round, play, cursor).champion in roundTeams
    ensures |roundTeams| == 1 ==> Finish(roundTeams, round, play, cursor).bracket == []
    decreases |roundTeams|
  {
    if |roundTeams| > 1 {
      var p := PlayMatches(Pairings(roundTeams), play, cursor);
      RoundAdvances(roundTeams, play, cursor);
      Advancers(roundTeams, play, cursor);
      RoundCountHalf(|roundTeams|);
      FinishChampion(p.winners, round + 1, play, p.cursor);
    }
  }

  /** The first column pairs the field by position, and the last one is the final,
      won by the champion. */
  lemma {:induction false} FinishEnds(roundTeams: seq<Team>, round: int, play: Referee, cursor: nat)
    requires IsPow2(|roundTeams|) && AllReady(roundTeams) && Sound(play) && |roundTeams| > 1
    ensures Opens(roundTeams, Finish(roundTeams, round, play, cursor).bracket[0])
    ensures Crowns(Finish(roundTeams, round, play, cursor).bracket, Finish(roundTeams, round, play, cursor).champion)
    decreases |roundTeams|
  {
    var p := PlayMatches(Pairings(roundTeams), play, cursor);
    RoundAdvances(roundTeams, play, cursor);
    RoundCountHalf(|roundTeams|);
    if |p.winners| > 1 {
      FinishEnds(p.winners, round + 1, play, p.cursor);
    } else {
      assert p.matches[0].winner == Some(p.winners[0]);
    }
  }

  /** Two referees that both play `simulateBattle` on the stream `rng` run the
      same tournament on ready teams: the run depends on the draws alone. */
  lemma {:induction false} FinishAgrees(roundTeams: seq<Team>, round: int, play1: Referee, play2: Referee, rng: Rng, cursor: nat)
    requires IsPow2(|roundTeams|) && AllReady(roundTeams) && Simulates(play1, rng) && Simulates(play2, rng)
    ensures Finish(roundTeams, round, play1, cursor) == Finish(roundTeams, round, play2, cursor)
    decreases |roundTeams|
  {
    if |roundTeams| > 1 {
      var p := PlayMatches(Pairings(roundTeams), play1, cursor);
      PairingsReady(roundTeams);
      PlayMatchesAgree(Pairings(roundTeams), play1, play2, rng, cursor);
      RoundAdvances(roundTeams, play1, cursor);
      RoundCountHalf(|roundTeams|);
      FinishAgrees(p.winners, round + 1, play1, play2, rng, p.cursor);
    }
  }

  /** A decided column in front of a decided bracket. */
  lemma AllDecidedCons(r: Round, rest: seq<Round>)
    requires Decided(r) && AllDecided(rest)
    ensures AllDecided([r] + rest)
  {
    forall j | 0 <= j < |[r] + rest|
      ensures Decided(([r] + rest)[j])
    {
      if j > 0 {
        assert ([r] + rest)[j] == rest[j - 1];
      }
    }
  }

  /** A round of ready teams is decided and sends on ready teams. */
  lemma RoundDecided(roundTeams: seq<Team>, round: int, play: Referee, cursor: nat)
    requires |roundTeams| % 2 == 0 && AllReady(roundTeams) && Sound(play)
    ensures AllReady(PlayMatches(Pairings(roundTeams), play, cursor).winners)
    ensures Decided(Round(round, PlayMatches(Pairings(roundTeams), play, cursor).matches))
  {
    RoundAdvances(roundTeams, play, cursor);
  }

  /** Every match of the bracket is won by one of its two teams. */
  lemma {:induction false} FinishDecided(roundTeams: seq<Team>, round: int, play: Referee, cursor: nat)
    requires IsPow2(|roundTeams|) && AllReady(roundTeams) && Sound(play)
    ensures AllDecided(Finish(roundTeams, round, play, cursor).bracket)
    decreases |roundTeams|
  {
    if |roundTeams| > 1 {
      var p := PlayMatches(Pairings(roundTeams), play, cursor);
      RoundDecided(roundTeams, round, play, cursor);
      RoundCountHalf(|roundTeams|);
      FinishDecided(p.winners, round + 1, play, p.cursor);
      AllDecidedCons(Round(round, p.matches), Finish(p.winners, round + 1, play, p.cursor).bracket);
    }
  }

  /** A column feeding the first column of a chained bracket, in front of it. */
  lemma ChainedCons(r: Round, rest: seq<Round>)
    requires Chained(rest) && (|rest| > 0 ==> Feeds(r, rest[0]))
    ensures Chained([r] + rest)
  {
    forall j | 0 <= j < |[r] + rest| - 1
      ensures Feeds(([r] + rest)[j], ([r] + rest)[j + 1])
    {
      if j > 0 {
        assert ([r] + rest)[j] == rest[j - 1] && ([r] + rest)[j + 1] == rest[j];
      }
    }
  }

  /** Each column is played by the winners of the column before, in match order. */
  lemma {:induction false} FinishChained(roundTeams: seq<Team>, round: int, play: Referee, cursor: nat)
    requires IsPow2(|roundTeams|) && AllReady(roundTeams) && Sound(play)
    ensures Chained(Finish(roundTeams, round, play, cursor).bracket)
    decreases |roundTeams|
  {
    if |roundTeams| > 1 {
      var p := PlayMatches(Pairings(roundTeams), play, cursor);
      assert Advances(roundTeams, p) by {
        RoundAdvances(roundTeams, play, cursor);
      }
      RoundCountHalf(|roundTeams|);
      FinishChained(p.winners, round + 1, play, p.cursor);
      var rest := Finish(p.winners, round + 1, play, p.cursor).bracket;
      if |p.winners| > 1 {
        FinishEnds(p.winners, round + 1, play, p.cursor);
        OpensFeeds(Round(round, p.matches), p.winners, rest[0]);
      }
      ChainedCons(Round(round, p.matches), rest);
    }
  }

  /** Teams with pairwise distinct names that the winner line gives back intact. */
  predicate Distinguished(teams: seq<Team>)
  {
    && (forall i, j :: 0 <= i < j < |teams| ==> teams[i].name != teams[j].name)
    && (forall i :: 0 <= i < |teams| ==> Readable(teams[i].name))
  }

  /** Every match of the column is between two teams whose names differ and read
      back intact, so each winner read from a log is the battle's winner. */
  predicate Apart(r: Round)
  {
    forall k :: 0 <= k < |r.matches| ==>
      && r.matches[k].team1.name != r.matches[k].team2.name
      && Readable(r.matches[k].team1.name)
      && Readable(r.matches[k].team2.name)
  }

  predicate Separable(bracket: seq<Round>)
  {
    forall j :: 0 <= j < |bracket| ==> Apart(bracket[j])
  }

  /** A round opened by distinguished teams is apart. */
  lemma OpenedApart(roundTeams: seq<Team>, r: Round)
    requires Distinguished(roundTeams)
    requires |r.matches| * 2 == |roundTeams|
    requires forall k :: 0 <= k < |r.matches| ==> r.matches[k].team1 == roundTeams[2 * k] && r.matches[k].team2 == roundTeams[2 * k + 1]
    ensures Apart(r)
  {
    forall k | 0 <= k < |r.matches|
      ensures r.matches[k].team1.name != r.matches[k].team2.name
    {
      assert 2 * k < 2 * k + 1;
    }
  }

  /** The winners of a round of distinguished teams are distinguished: they come
      from different matches, hence from different positions. */
  lemma AdvancersDistinguished(roundTeams: seq<Team>, play: Referee, cursor: nat)
    requires |roundTeams| % 2 == 0 && AllReady(roundTeams) && Sound(play) && Distinguished(roundTeams)
    ensures Distinguished(PlayMatches(Pairings(roundTeams), play, cursor).winners)
  {
    var p := PlayMatches(Pairings(roundTeams), play, cursor);
    RoundAdvances(roundTeams, play, cursor);
    forall i, j | 0 <= i < j < |p.winners|
      ensures p.winners[i].name != p.winners[j].name
    {
      assert 2 * i + 1 < 2 * j;
    }
  }

  /** A round of distinguished teams is apart and sends on distinguished teams,
      ready. */
  lemma RoundSeparates(roundTeams: seq<Team>, round: int, play: Referee, cursor: nat)
    requires |roundTeams| % 2 == 0 && AllReady(roundTeams) && Sound(play) && Distinguished(roundTeams)
    ensures AllReady(PlayMatches(Pairings(roundTeams), play, cursor).winners)
    ensures Distinguished(PlayMatches(Pairings(roundTeams), play, cursor).winners)
    ensures Apart(Round(round, PlayMatches(Pairings(roundTeams), play, cursor).matches))
  {
    RoundAdvances(roundTeams, play, cursor);
    AdvancersDistinguished(roundTeams, play, cursor);
    OpenedApart(roundTeams, Round(round, PlayMatches(Pairings(roundTeams), play, cursor).matches));
  }

  /** An apart column in front of a separable bracket. */
  lemma SeparableCons(r: Round, rest: seq<Round>)
    requires Apart(r) && Separable(rest)
    ensures Separable([r] + rest)
  {
    forall j | 0 <= j < |[r] + rest|
      ensures Apart(([r] + rest)[j])
    {
      if j > 0 {
        assert ([r] + rest)[j] == rest[j - 1];
      }
    }
  }

  /** A field of distinguished teams only ever plays matches whose winner can be
      read back from the log. */
  lemma {:induction false} FinishSeparable(roundTeams: seq<Team>, round: int, play: Referee, cursor: nat)
    requires IsPow2(|roundTeams|) && AllReady(roundTeams) && Sound(play) && Distinguished(roundTeams)
    ensures Separable(Finish(roundTeams, round, play, cursor).bracket)
    decreases |roundTeams|
  {
    if |roundTeams| > 1 {
      var p := PlayMatches(Pairings(roundTeams), play, cursor);
      RoundSeparates(roundTeams, round, play, cursor);
      RoundCountHalf(|roundTeams|);
      FinishSeparable(p.winners, round + 1, play, p.cursor);
      SeparableCons(Round(round, p.matches), Finish(p.winners, round + 1, play, p.cursor).bracket);
    }
  }

  /** What is done so far (`bracket`, `logs`) followed by the rest of the run gives
      the whole run. */
  ghost predicate Resumes(bracket: seq<Round>, logs: seq<BattleLog>, rest: Tournament, whole: Tournament)
  {
    && bracket + rest.bracket == whole.bracket
    && logs + rest.logs == whole.logs
    && rest.champion == whole.champion
    && rest.cursor == whole.cursor
  }

  /** One pass of the round loop, past its header line: the pairing loop, then the
      match loop; the field halves and what follows is the run from the next round. */
  method PlayTournamentRound(roundTeams: seq<Team>, round: int, rng: Rng, cursor: nat, ghost play: Referee)
    returns (played: seq<Match>, nextRoundTeams: seq<Team>, roundLogs: seq<BattleLog>, next: nat)
    requires IsPow2(|roundTeams|) && |roundTeams| > 1 && AllReady(roundTeams) && Simulates(play, rng)
    ensures |nextRoundTeams| * 2 == |roundTeams| && IsPow2(|nextRoundTeams|) && AllReady(nextRoundTeams)
    ensures var rest := Finish(nextRoundTeams, round + 1, play, next);
      Finish(roundTeams, round, play, cursor) == Tournament([Round(round, played)] + rest.bracket, rest.champion, [RoundHeader(round)] + roundLogs + rest.logs, rest.cursor)
  {
    var matches := PairUp(roundTeams);
    PairingsPositions(roundTeams);
    PlayMatchesOutcome(matches, play, cursor);
    RoundCountHalf(|roundTeams|);
    played, nextRoundTeams, roundLogs, next := PlayRound(matches, rng, cursor, play);
  }

  /** `simulateTournament`: the round loop from round 1 with an empty bracket and
      log, reading draws from `cursor` on; `play` names the battles it runs. */
  method SimulateTournament(teamsArray: seq<Team>, rng: Rng, cursor: nat, ghost play: Referee)
    returns (bracket: seq<Round>, champion: Team, logs: seq<BattleLog>, next: nat)
    requires IsPow2(|teamsArray|) && AllReady(teamsArray) && Simulates(play, rng)
    ensures Tournament(bracket, champion, logs, next) == Finish(teamsArray, 1, play, cursor)
  {
    ghost var whole := Finish(teamsArray, 1, play, cursor);
    var roundTeams := teamsArray;
    var round := 1;
    bracket, logs, next := [], [], cursor;
    while |roundTeams| > 1
      invariant IsPow2(|roundTeams|) && AllReady(roundTeams)
      invariant Resumes(bracket, logs, Finish(roundTeams, round, play, next), whole)
      decreases |roundTeams|
    {
      ghost var before := logs;
      logs := logs + [RoundHeader(round)];
      var played, nextRoundTeams, roundLogs, after := PlayTournamentRound(roundTeams, round, rng, next, play);
      ghost var rest := Finish(nextRoundTeams, round + 1, play, after);
      Seqs.AppendAssoc(bracket, [Round(round, played)], rest.bracket);
      Seqs.AppendAssoc(before, [RoundHeader(round)] + roundLogs, rest.logs);
      Seqs.AppendAssoc(before, [RoundHeader(round)], roundLogs);
      bracket := bracket + [Round(round, played)];
      logs := logs + roundLogs;
      roundTeams := nextRoundTeams;
      round := round + 1;
      next := after;
    }
    champion := roundTeams[0];
    logs := logs + [ChampionLine(champion.name)];
    assert bracket + [] == bracket;
  }

  /** Five columns numbered 1 to 5 with 16, 8, 4, 2 and 1 matches, each titled
      with the name of its stage. */
  predicate Staged(b: seq<Round>)
  {
    && |b| == 5
    && forall j :: 0 <= j < 5 ==>
      && b[j].round == j + 1
      && |b[j].matches| == Pow2(4 - j)
      && RoundLabel(b[j].round) == StageName(|b[j].matches|)
  }

  lemma StagedColumns(b: seq<Round>)
    requires |b| == 5 && Numbered(b, 1) && Chained(b) && |b[0].matches| == 16
    ensures Staged(b)
  {
    assert Feeds(b[0], b[1]) && Feeds(b[1], b[2]) && Feeds(b[2], b[3]) && Feeds(b[3], b[4]);
    RoundLabelNamesStage(1);
    RoundLabelNamesStage(2);
    RoundLabelNamesStage(3);
    RoundLabelNamesStage(4);
    RoundLabelNamesStage(5);
  }

  /** The bracket of 32 ready teams is staged as the page titles it. */
  lemma ThirtyTwoTeamBracket(teams: seq<Team>, play: Referee, cursor: nat)
    requires |teams| == 32 && AllReady(teams) && Sound(play)
    ensures IsPow2(|teams|)
    ensures Staged(Finish(teams, 1, play, cursor).bracket)
  {
    assert IsPow2(1) && IsPow2(2) && IsPow2(4) && IsPow2(8) && IsPow2(16) && IsPow2(32);
    assert RoundCount(32) == 5;
    FinishShape(teams, 1, play, cursor);
    FinishEnds(teams, 1, play, cursor);
    FinishChained(teams, 1, play, cursor);
    StagedColumns(Finish(teams, 1, play, cursor).bracket);
  }
}
