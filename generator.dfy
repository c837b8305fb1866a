/**
 * `generateFictionalTeams`: ten conferences of twelve teams, each with a
 * drawn name, ratings around the conference average and a pace clamped into
 * [60, 75], all records at zero.
 *
 * The random draws are an input: `draw(c, i)` is what the source draws for
 * team i of conference c (two name indices and three Gaussian noises).
 */
module Generator {
  import opened Teams

  datatype Conference = Conference(name: string, avg: int)

  /** The source's draws for one team: `choice` indices and the raw Gaussian noise. */
  datatype TeamDraw = TeamDraw(left: nat, suffix: nat, offNoise: real, defNoise: real, paceNoise: real)

  const Conferences: seq<Conference> := [
    Conference("Americana", 78), Conference("Frontier", 76), Conference("Great Lakes", 75),
    Conference("Sunbelt Metro", 74), Conference("Coastal", 73), Conference("Heartland", 72),
    Conference("Mountain", 71), Conference("Atlantic", 70), Conference("Prairie", 69),
    Conference("Pacific Rim", 68)
  ]

  const NameLeft: seq<string> := [
    "Bayview", "Riverdale", "Cedar", "Summit", "Prairie", "Canyon", "Harbor", "Lakeside", "Highland",
    "Pinecrest", "Evergreen", "Redwood", "Stonebridge", "Silver Creek", "Maplewood", "Brookfield",
    "Oak Grove", "Fox Ridge", "Goldenfield", "Blue Valley"
  ]

  const Suffix: seq<string> := ["State", "Tech", "College", "University", "A&M", "Poly", "Institute"]

  const TeamsPerConference: nat := 12

  /** The team the source builds for slot i of conference c, numbered `id`. */
  function NewTeam(id: nat, conf: Conference, d: TeamDraw): (t: Team)
    ensures t.id == id && t.conf == conf.name
    ensures t.wins == 0 && t.losses == 0 && t.confWins == 0 && t.confLosses == 0
    ensures 60 <= t.pace <= 75
    ensures conf.avg as real + d.offNoise - 0.5 < t.ratingOff as real <= conf.avg as real + d.offNoise + 0.5
    ensures conf.avg as real + d.defNoise - 0.5 < t.ratingDef as real <= conf.avg as real + d.defNoise + 0.5
  {
    Team(id, NameLeft[d.left % |NameLeft|] + " " + Suffix[d.suffix % |Suffix|], conf.name,
         JsRound(conf.avg as real + d.offNoise), JsRound(conf.avg as real + d.defNoise),
         Clamp(60, 75, JsRound(70.0 + d.paceNoise)),
         0, 0, 0, 0)
  }

  /** The league's teams: conference by conference, twelve each. */
  method GenerateFictionalTeams(draw: (nat, nat) -> TeamDraw) returns (teams: seq<Team>)
    ensures |teams| == |Conferences| * TeamsPerConference == 120
    ensures IdsAreIndices(teams)
    ensures forall k :: 0 <= k < |teams| ==>
              teams[k] == NewTeam(k, Conferences[k / TeamsPerConference], draw(k / TeamsPerConference, k % TeamsPerConference))
    ensures forall k :: 0 <= k < |teams| ==>
              teams[k].wins == 0 && teams[k].losses == 0 && teams[k].confWins == 0 && teams[k].confLosses == 0 &&
              60 <= teams[k].pace <= 75
  {
    teams := [];
    var c := 0;
    while c < |Conferences|
      invariant 0 <= c <= |Conferences|
      invariant |teams| == c * TeamsPerConference
      invariant forall k :: 0 <= k < |teams| ==>
                  teams[k] == NewTeam(k, Conferences[k / TeamsPerConference], draw(k / TeamsPerConference, k % TeamsPerConference))
    {
      var i := 0;
      while i < TeamsPerConference
        invariant 0 <= i <= TeamsPerConference
        invariant |teams| == c * TeamsPerConference + i
        invariant forall k :: 0 <= k < |teams| ==>
                    teams[k] == NewTeam(k, Conferences[k / TeamsPerConference], draw(k / TeamsPerConference, k % TeamsPerConference))
      {
        var k := |teams|;
        assert k / TeamsPerConference == c && k % TeamsPerConference == i;
        teams := teams + [NewTeam(k, Conferences[c], draw(c, i))];
        i := i + 1;
      }
      c := c + 1;
    }
  }
}
