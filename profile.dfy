/**
  Profile synthesis: a hash bucket in 0..999 picks a tier and the range the
  gamerscore is drawn from, the score picks the range the account age is
  drawn from, and the remaining fields are drawn around the score.
*/
module Profiles {
  import opened Text

  /** The tier of a profile; the program stores its name, `TierName`. */
  datatype Tier = Legendary | Veteran | Advanced | Intermediate | Beginner | New

  function TierName(t: Tier): string
  {
    match t
    case Legendary => "Legendary"
    case Veteran => "Veteran"
    case Advanced => "Advanced"
    case Intermediate => "Intermediate"
    case Beginner => "Beginner"
    case New => "New"
  }

  /** The tier strings are distinct, so a profile's tier text is `TierName` of exactly one tier. */
  lemma TierNameInjective(t1: Tier, t2: Tier)
    requires TierName(t1) == TierName(t2)
    ensures t1 == t2
  {
    assert TierName(t1)[0] == TierName(t2)[0];
  }

  /** The bucket ladder: above 900, 750, 550, 300 and 100, and the rest. */
  function TierOf(bucket: int): Tier
  {
    if bucket > 900 then Legendary
    else if bucket > 750 then Veteran
    else if bucket > 550 then Advanced
    else if bucket > 300 then Intermediate
    else if bucket > 100 then Beginner
    else New
  }

  /** Position of a tier from the top of the ladder. */
  function TierRank(t: Tier): nat
  {
    match t
    case Legendary => 0
    case Veteran => 1
    case Advanced => 2
    case Intermediate => 3
    case Beginner => 4
    case New => 5
  }

  /** The gamerscore range of each tier. */
  function ScoreRange(t: Tier): Range
  {
    match t
    case Legendary => Range(80000, 150000)
    case Veteran => Range(50000, 80000)
    case Advanced => Range(20000, 50000)
    case Intermediate => Range(5000, 20000)
    case Beginner => Range(1000, 5000)
    case New => Range(0, 1000)
  }

  /** The score ladder for the account age: a range of years, or no years at all. */
  datatype AgeBand = Years(range: Range) | NewAccount

  function AgeBandOf(score: int): AgeBand
  {
    if score > 100000 then Years(Range(8, 12))
    else if score > 50000 then Years(Range(5, 8))
    else if score > 20000 then Years(Range(3, 5))
    else if score > 5000 then Years(Range(1, 3))
    else if score > 0 then Years(Range(0, 1))
    else NewAccount
  }

  /** `f"{n} years"` */
  function YearsText(n: int): string
  {
    IntToString(n) + " years"
  }

  const Reputations: seq<string> := ["Good", "Excellent", "Fair"]

  /** The profile dictionary. */
  datatype Profile = Profile(
    gamertag: string,
    gamerscore: int,
    tier: Tier,
    age: string,
    valid: bool,
    reputation: string,
    followers: int,
    gamesPlayed: int)

  /**
    The outcome of a synthesis: a profile, or the `ValueError` that
    `randint(low, high)` raises when `low > high`.
  */
  datatype Synthesis = Synthesised(profile: Profile) | EmptyRange(low: int, high: int)

  /**
    The random draws of one synthesis, each in the range the generator draws
    it from, a range that depends on the draws before it. The age draw is
    only made when the score has an age range, and the games draw only when
    its range is not empty.
  */
  predicate DrawsFit(bucket: int, score: int, years: int, reputation: int, followers: int, games: int)
  {
    && ScoreRange(TierOf(bucket)).Has(score)
    && (AgeBandOf(score).Years? ==> AgeBandOf(score).range.Has(years))
    && 0 <= reputation < |Reputations|
    && 0 <= followers <= score / 10
    && (5 <= score / 100 ==> 5 <= games <= score / 100)
  }

  /** `get_profile_info` on a cache miss, for the bucket `hash(gamertag) % 1000`, with the draws made explicit. */
  function Synthesize(gamertag: string, bucket: int, score: int, years: int, reputation: int, followers: int, games: int): (r: Synthesis)
    requires DrawsFit(bucket, score, years, reputation, followers, games)
    ensures r.EmptyRange? <==> score < 500
    ensures r.EmptyRange? ==> TierOf(bucket) == New && r == EmptyRange(5, score / 100)
    ensures r.Synthesised? ==> r.profile.gamertag == gamertag && r.profile.tier == TierOf(bucket)
    ensures r.Synthesised? ==> ScoreRange(r.profile.tier).Has(r.profile.gamerscore)
  {
    var tier := TierOf(bucket);
    var age := match AgeBandOf(score) case Years(_) => YearsText(years) case NewAccount => "New account";
    if score / 100 < 5 then EmptyRange(5, score / 100)
    else Synthesised(Profile(gamertag, score, tier, age, score > 0, Reputations[reputation], followers, games))
  }

  /** Some choice of draws synthesises `p` for `gamertag` in `bucket`. */
  ghost predicate Fits(gamertag: string, bucket: int, p: Profile)
  {
    exists score: int, years: int, reputation: int, followers: int, games: int
      | DrawsFit(bucket, score, years, reputation, followers, games)
      :: Synthesize(gamertag, bucket, score, years, reputation, followers, games) == Synthesised(p)
  }

  /** A profile synthesised from some draws fits its gamertag and bucket. */
  lemma SynthesisFits(gamertag: string, bucket: int, score: int, years: int, reputation: int, followers: int, games: int)
    requires DrawsFit(bucket, score, years, reputation, followers, games)
    requires Synthesize(gamertag, bucket, score, years, reputation, followers, games).Synthesised?
    ensures Fits(gamertag, bucket, Synthesize(gamertag, bucket, score, years, reputation, followers, games).profile)
  {
  }

  /**
    Every synthesised profile keeps its tier's score range, the age the score
    ladder gives, `valid` exactly when the score is positive, one of the three
    reputations, at most a tenth of the score in followers and at least five
    games.
  */
  lemma SynthesisShape(gamertag: string, bucket: int, score: int, years: int, reputation: int, followers: int, games: int)
    requires DrawsFit(bucket, score, years, reputation, followers, games)
    requires Synthesize(gamertag, bucket, score, years, reputation, followers, games).Synthesised?
    ensures var p := Synthesize(gamertag, bucket, score, years, reputation, followers, games).profile;
      && p.gamerscore == score
      && (AgeBandOf(score).Years? ==> p.age == YearsText(years) && AgeBandOf(score).range.Has(years))
      && (AgeBandOf(score).NewAccount? ==> p.age == "New account")
      && (p.valid <==> p.gamerscore > 0)
      && p.reputation in Reputations
      && 0 <= p.followers <= p.gamerscore / 10
      && 5 <= p.gamesPlayed <= p.gamerscore / 100
  {
  }

  /**
    Because the games draw fails below a score of 500, every profile that is
    synthesised has a positive score and an age in years: the `"New account"`
    age and `valid == False` are never produced.
  */
  lemma SynthesisedIsValid(gamertag: string, bucket: int, p: Profile)
    requires Fits(gamertag, bucket, p)
    ensures p.valid && p.gamerscore >= 500
    ensures AgeBandOf(p.gamerscore).Years?
    ensures p.age != "New account"
    ensures ScoreRange(TierOf(bucket)).Has(p.gamerscore) && p.tier == TierOf(bucket)
  {
    var score: int, years: int, reputation: int, followers: int, games: int :|
      DrawsFit(bucket, score, years, reputation, followers, games)
      && Synthesize(gamertag, bucket, score, years, reputation, followers, games) == Synthesised(p);
    assert p.age == YearsText(years);
    assert p.age[|p.age| - 1] == 's';
  }

  /** Only a New-tier bucket can fail, and it fails for every score draw below 500. */
  lemma FailureIsNewTier(bucket: int)
    ensures TierOf(bucket) != New ==> ScoreRange(TierOf(bucket)).lo >= 500
    ensures TierOf(bucket) == New <==> bucket <= 100
  {
  }

  /** A higher bucket never gives a lower tier, and a higher tier never has a lower range. */
  lemma TierLadderMonotone(b1: int, b2: int)
    requires b1 <= b2
    ensures TierRank(TierOf(b2)) <= TierRank(TierOf(b1))
    ensures ScoreRange(TierOf(b1)).lo <= ScoreRange(TierOf(b2)).lo
    ensures ScoreRange(TierOf(b1)).hi <= ScoreRange(TierOf(b2)).hi
  {
  }

  /**
    The ranges are inclusive at both ends, so neighbouring tiers share their
    boundary score; any other score determines the tier.
  */
  lemma ScoreDeterminesTier(t1: Tier, t2: Tier, score: int)
    requires ScoreRange(t1).Has(score) && ScoreRange(t2).Has(score) && t1 != t2
    ensures score in {80000, 50000, 20000, 5000, 1000}
    ensures TierRank(t1) == TierRank(t2) + 1 || TierRank(t2) == TierRank(t1) + 1
  {
  }

  /** Every score from 0 to 150000 lies in some tier's range, and the age ladder covers every score. */
  lemma RangesCover(score: int)
    requires 0 <= score <= 150000
    ensures exists t: Tier :: ScoreRange(t).Has(score)
    ensures score > 0 <==> AgeBandOf(score).Years?
  {
    if score <= 1000 { assert ScoreRange(New).Has(score); }
    else if score <= 5000 { assert ScoreRange(Beginner).Has(score); }
    else if score <= 20000 { assert ScoreRange(Intermediate).Has(score); }
    else if score <= 50000 { assert ScoreRange(Advanced).Has(score); }
    else if score <= 80000 { assert ScoreRange(Veteran).Has(score); }
    else { assert ScoreRange(Legendary).Has(score); }
  }

  /** A Veteran at 60000 is five to eight years old and has 500 to 600 games. */
  lemma VeteranExample(bucket: int, years: int, games: int)
    requires TierOf(bucket) == Veteran && DrawsFit(bucket, 60000, years, 0, 10, games)
    ensures 751 <= bucket <= 900
    ensures 5 <= years <= 8 && 5 <= games <= 600
    ensures Synthesize("ace", bucket, 60000, years, 0, 10, games).Synthesised?
    ensures Synthesize("ace", bucket, 60000, years, 0, 10, games).profile.reputation == "Good"
  {
  }
}
