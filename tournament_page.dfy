/** The tournament page from start to end (pages/tournament.tsx): read the
    catalogue, build the teams, run the tournament. The catalogue response is an
    input (`None` when the request fails, answers with an error status or does not
    decode), and so is the draw stream. */
module TournamentPage {
  import opened Pokedata
  import opened Random
  import opened Combat
  import opened TeamFactory
  import opened Bracket
  import opened Knockout
  import Text

  /** The message logged when the catalogue cannot be read. */
  const LoadError: string := "Erreur lors du chargement des donn\U{E9}es"

  /** What the page ends with: the teams it built, the bracket, the champion when
      there is one, and the log. */
  datatype Page = Page(teams: seq<Team>, bracket: seq<Round>, champion: Option<Team>, logs: seq<BattleLog>)

  /** Team names `Équipe n` contain no letter r. */
  lemma TeamNameHasNoR(n: nat)
    ensures forall k :: 0 <= k < |TeamName(n)| ==> TeamName(n)[k] != 'r'
  {
    var prefix := "\U{C9}quipe ";
    var digits := Text.NatToString(n);
    assert TeamName(n) == prefix + digits;
    forall k | 0 <= k < |TeamName(n)|
      ensures TeamName(n)[k] != 'r'
    {
      if k >= |prefix| {
        assert TeamName(n)[k] == digits[k - |prefix|];
      }
    }
  }

  /** Team `i` (from 0) is named `Équipe i+1`. */
  predicate NamedInOrder(teams: seq<Team>)
  {
    forall i :: 0 <= i < |teams| ==> teams[i].name == TeamName(i + 1)
  }

  /** Teams named in order have distinct names that read back intact from a
      winner line. */
  lemma NamedInOrderDistinguished(teams: seq<Team>)
    requires NamedInOrder(teams)
    ensures Distinguished(teams)
  {
    forall i | 0 <= i < |teams|
      ensures Readable(teams[i].name)
    {
      TeamNameHasNoR(i + 1);
      NameWithoutRRecovers(teams[i].name);
    }
    forall i, j | 0 <= i < j < |teams|
      ensures teams[i].name != teams[j].name
    {
      if teams[i].name == teams[j].name {
        TeamNamesDistinct(i + 1, j + 1);
      }
    }
  }

  /** The 32 generated teams are ready to fight and named in order. */
  lemma GeneratedTeamsReady(pokemons: seq<Creature>, rng: Rng, cursor: nat)
    requires |ValidPokemons(pokemons)| >= TeamCount * RosterSize
    ensures |FormTeams(ShuffledPool(ValidPokemons(pokemons), rng, cursor))| == 32
    ensures AllReady(FormTeams(ShuffledPool(ValidPokemons(pokemons), rng, cursor)))
    ensures NamedInOrder(FormTeams(ShuffledPool(ValidPokemons(pokemons), rng, cursor)))
  {
    GeneratedTeams(pokemons, rng, cursor);
    var teams := FormTeams(ShuffledPool(ValidPokemons(pokemons), rng, cursor));
    forall i | 0 <= i < |teams|
      ensures Ready(teams[i])
    {
      var ms := teams[i].members;
      assert forall k :: 0 <= k < |ms| ==> Fighter(ms[k]) && Healthy(ms[k]);
    }
  }

  /** A field of 32 halves evenly down to one team. */
  lemma ThirtyTwoHalves()
    ensures IsPow2(32)
  {
    assert IsPow2(1) && IsPow2(2) && IsPow2(4) && IsPow2(8) && IsPow2(16);
  }

  /** The page after `simulateTournament` has run on `teams` with the battles
      played by `play`, reading draws from `cursor` on. */
  function Contest(teams: seq<Team>, play: Referee, cursor: nat): Page
    requires |teams| == 32 && AllReady(teams) && Sound(play)
  {
    ThirtyTwoHalves();
    Page(teams, Finish(teams, 1, play, cursor).bracket, Some(Finish(teams, 1, play, cursor).champion), Finish(teams, 1, play, cursor).logs)
  }

  /** `generateTeams` on the catalogue, then the tournament: the shuffle reads
      the first draws of the stream and the battles the rest. */
  function Built(pokemons: seq<Creature>, rng: Rng, play: Referee): Page
    requires Sound(play)
  {
    if |ValidPokemons(pokemons)| < TeamCount * RosterSize then Page([], [], None, [BattleLog(NotEnoughPokemons, true)])
    else
      GeneratedTeamsReady(pokemons, rng, 0);
      Contest(FormTeams(ShuffledPool(ValidPokemons(pokemons), rng, 0)), play, |ValidPokemons(pokemons)| - 1)
  }

  /** `fetchPokemons`, then `generateTeams`, then `simulateTournament`, all reading
      one draw stream from its start. */
  function PageRun(response: Option<seq<Creature>>, rng: Rng, play: Referee): Page
    requires Sound(play)
  {
    if response.None? then Page([], [], None, [BattleLog(LoadError, true)])
    else Built(response.value, rng, play)
  }

  /** The tournament run on the generated teams. */
  method RunContest(teamsArray: seq<Team>, rng: Rng, cursor: nat, ghost play: Referee) returns (page: Page)
    requires |teamsArray| == 32 && AllReady(teamsArray) && Simulates(play, rng)
    ensures page == Contest(teamsArray, play, cursor)
  {
    ThirtyTwoHalves();
    var bracket, champion, logs, next := SimulateTournament(teamsArray, rng, cursor, play);
    page := Page(teamsArray, bracket, Some(champion), logs);
  }

  /** `generateTeams`, which hands its teams on to `simulateTournament`. */
  method GenerateTeamsAndPlay(pokemons: seq<Creature>, rng: Rng, ghost play: Referee) returns (page: Page)
    requires Simulates(play, rng)
    ensures page == Built(pokemons, rng, play)
  {
    var teams, next := GenerateTeams(pokemons, rng, 0);
    if teams.None? {
      return Page([], [], None, [BattleLog(NotEnoughPokemons, true)]);
    }
    BuiltOfGenerated(pokemons, rng, play, teams.value, next);
    page := RunContest(teams.value, rng, next, play);
  }

  /** The generated teams and the cursor after the shuffle are those `Built`
      runs the tournament on. */
  lemma BuiltOfGenerated(pokemons: seq<Creature>, rng: Rng, play: Referee, teams: seq<Team>, next: nat)
    requires Sound(play) && |ValidPokemons(pokemons)| >= TeamCount * RosterSize
    requires teams == FormTeams(ShuffledPool(ValidPokemons(pokemons), rng, 0))
    requires next == |ValidPokemons(pokemons)| - 1
    ensures |teams| == 32 && AllReady(teams)
    ensures Built(pokemons, rng, play) == Contest(teams, play, next)
  {
    GeneratedTeamsReady(pokemons, rng, 0);
  }

  /** The page's run (`fetchPokemons`): one error line when the catalogue cannot
      be read or is too small, otherwise the teams, the bracket, the champion and
      the whole log. */
  method RunPage(response: Option<seq<Creature>>, rng: Rng, ghost play: Referee) returns (page: Page)
    requires Simulates(play, rng)
    ensures page == PageRun(response, rng, play)
  {
    if response.None? {
      return Page([], [], None, [BattleLog(LoadError, true)]);
    }
    page := GenerateTeamsAndPlay(response.value, rng, play);
  }

  /** A finished tournament page: 32 teams, a five-column bracket titled by
      stage, every match won by one of its teams, each column played by the
      winners of the one before, every match between two teams whose winner reads
      back from the log, a champion among the 32 who wins the final, and a log
      that ends by naming it. */
  predicate Crowned(page: Page)
  {
    && |page.teams| == 32
    && Staged(page.bracket)
    && AllDecided(page.bracket)
    && Chained(page.bracket)
    && Separable(page.bracket)
    && page.champion.Some?
    && page.champion.value in page.teams
    && Crowns(page.bracket, page.champion.value)
    && |page.logs| > 0
    && page.logs[|page.logs| - 1] == ChampionLine(page.champion.value.name)
  }

  /** The tournament on 32 ready teams with distinct, readable names ends with a
      crowned page, whatever engine plays the battles. */
  lemma ContestOutcome(teams: seq<Team>, play: Referee, cursor: nat)
    requires |teams| == 32 && AllReady(teams) && Distinguished(teams) && Sound(play)
    ensures Crowned(Contest(teams, play, cursor))
  {
    ThirtyTwoHalves();
    ThirtyTwoTeamBracket(teams, play, cursor);
    FinishDecided(teams, 1, play, cursor);
    FinishChained(teams, 1, play, cursor);
    FinishSeparable(teams, 1, play, cursor);
    FinishChampion(teams, 1, play, cursor);
    FinishEnds(teams, 1, play, cursor);
    FinishLog(teams, 1, play, cursor);
  }

  /** A failed request logs the load error and builds nothing. */
  lemma PageLoadFailure(rng: Rng, play: Referee)
    requires Sound(play)
    ensures PageRun(None, rng, play) == Page([], [], None, [BattleLog(LoadError, true)])
  {
  }

  /** A catalogue with fewer than 192 eligible creatures logs the shortage and
      builds nothing. */
  lemma PageTooFewPokemons(pokemons: seq<Creature>, rng: Rng, play: Referee)
    requires |ValidPokemons(pokemons)| < TeamCount * RosterSize && Sound(play)
    ensures PageRun(Some(pokemons), rng, play) == Page([], [], None, [BattleLog(NotEnoughPokemons, true)])
  {
  }

  /** The tournament on 32 ready teams named in order ends with a crowned page. */
  lemma NamedContestCrowned(teams: seq<Team>, play: Referee, cursor: nat)
    requires |teams| == 32 && AllReady(teams) && NamedInOrder(teams) && Sound(play)
    ensures Crowned(Contest(teams, play, cursor))
  {
    NamedInOrderDistinguished(teams);
    ContestOutcome(teams, play, cursor);
  }

  /** A catalogue with at least 192 eligible creatures ends with a crowned page. */
  lemma PageCrowned(pokemons: seq<Creature>, rng: Rng, play: Referee)
    requires |ValidPokemons(pokemons)| >= TeamCount * RosterSize && Sound(play)
    ensures Crowned(PageRun(Some(pokemons), rng, play))
  {
    var teams := FormTeams(ShuffledPool(ValidPokemons(pokemons), rng, 0));
    var cursor := |ValidPokemons(pokemons)| - 1;
    GeneratedTeamsReady(pokemons, rng, 0);
    BuiltOfGenerated(pokemons, rng, play, teams, cursor);
    CrownedOfSamePage(Built(pokemons, rng, play), teams, play, cursor);
  }

  /** On a catalogue large enough, the page is the tournament on 32 ready teams
      named in order. */
  lemma GeneratedPage(pokemons: seq<Creature>, rng: Rng, play: Referee) returns (teams: seq<Team>)
    requires |ValidPokemons(pokemons)| >= TeamCount * RosterSize && Sound(play)
    ensures |teams| == 32 && AllReady(teams) && NamedInOrder(teams)
    ensures PageRun(Some(pokemons), rng, play) == Contest(teams, play, |ValidPokemons(pokemons)| - 1)
  {
    GeneratedTeamsReady(pokemons, rng, 0);
    teams := FormTeams(ShuffledPool(ValidPokemons(pokemons), rng, 0));
  }

  /** The page is fixed by the response and the draw stream: any two referees
      that play `simulateBattle` on that stream produce the same page. */
  lemma PageRunAgrees(response: Option<seq<Creature>>, rng: Rng, play1: Referee, play2: Referee)
    requires Simulates(play1, rng) && Simulates(play2, rng)
    ensures PageRun(response, rng, play1) == PageRun(response, rng, play2)
  {
    if response.Some? {
      BuiltAgrees(response.value, rng, play1, play2);
    }
  }

  /** Two referees that play `simulateBattle` on `rng` give the same page on the
      same catalogue. */
  lemma BuiltAgrees(pokemons: seq<Creature>, rng: Rng, play1: Referee, play2: Referee)
    requires Simulates(play1, rng) && Simulates(play2, rng)
    ensures Built(pokemons, rng, play1) == Built(pokemons, rng, play2)
  {
    if |ValidPokemons(pokemons)| >= TeamCount * RosterSize {
      var teams := FormTeams(ShuffledPool(ValidPokemons(pokemons), rng, 0));
      var cursor := |ValidPokemons(pokemons)| - 1;
      BuiltOfGenerated(pokemons, rng, play1, teams, cursor);
      BuiltOfGenerated(pokemons, rng, play2, teams, cursor);
      ContestAgrees(Built(pokemons, rng, play1), Built(pokemons, rng, play2), teams, play1, play2, rng, cursor);
    }
  }

  /** Two referees that play `simulateBattle` on `rng` give the same tournament
      page on the same teams. */
  lemma ContestAgrees(page1: Page, page2: Page, teams: seq<Team>, play1: Referee, play2: Referee, rng: Rng, cursor: nat)
    requires |teams| == 32 && AllReady(teams) && Simulates(play1, rng) && Simulates(play2, rng)
    requires page1 == Contest(teams, play1, cursor) && page2 == Contest(teams, play2, cursor)
    ensures page1 == page2
  {
    ThirtyTwoHalves();
    FinishAgrees(teams, 1, play1, play2, rng, cursor);
  }

  /** A page known to be the tournament on 32 ready teams named in order is
      crowned. */
  lemma CrownedOfSamePage(page: Page, teams: seq<Team>, play: Referee, cursor: nat)
    requires |teams| == 32 && AllReady(teams) && NamedInOrder(teams) && Sound(play)
    requires page == Contest(teams, play, cursor)
    ensures Crowned(page)
  {
    NamedContestCrowned(teams, play, cursor);
  }
}
