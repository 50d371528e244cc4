/**
  The checker: the email report, and the three lookups that derive a
  gamertag, a profile and an entitlement. Each lookup is memoised in its
  own cache, and domain information in a fourth. The caches are
  process-wide dictionaries in the program; here they are the map fields
  of one checker object, which stands for one process.
*/
module Pipeline {
  import opened Text
  import opened EmailRules
  import Handles
  import Profiles
  import Gamepass

  /** The dictionary `check_email` returns. */
  datatype EmailReport =
    | Rejected(username: string, domain: string, suggestions: seq<string>)
    | Accepted(username: string, domain: string, provider: string, kind: string,
               reliability: string, notes: string, score: int)

  class FastXboxChecker {
    /** Python's string `hash`, salted once per process. */
    const hash: string -> int

    var emailCache: map<string, DomainInfo>
    var gamertagCache: map<string, string>
    var profileCache: map<string, Profiles.Profile>
    var gamepassCache: map<string, Gamepass.GamePass>

    /** `hash(gamertag) % 1000`; Python's `%` by a positive number is never negative. */
    function Bucket(gamertag: string): (b: int)
      ensures 0 <= b < 1000
    {
      hash(gamertag) % 1000
    }

    /**
      Every cache entry is a value the uncached computation could have
      produced for its key: domain information for a lower-cased domain, a
      gamertag some draws derive from its key, a clean name, a profile some draws
      synthesise for the gamertag's bucket, and an entitlement some draws give
      at the score named in its key.
    */
    ghost predicate Valid()
      reads this
    {
      EmailCacheValid() && TagCacheValid() && ProfileCacheValid() && PassCacheValid()
    }

    ghost predicate EmailCacheValid()
      reads this`emailCache
    {
      forall d | d in emailCache :: IsLower(d) && emailCache[d] == Classify(d)
    }

    ghost predicate TagCacheValid()
      reads this`gamertagCache
    {
      forall c | c in gamertagCache :: AllAlnum(c) && Handles.IsHandleFor(c, gamertagCache[c])
    }

    ghost predicate ProfileCacheValid()
      reads this`profileCache
    {
      forall g | g in profileCache :: Profiles.Fits(g, Bucket(g), profileCache[g])
    }

    ghost predicate PassCacheValid()
      reads this`gamepassCache
    {
      forall k | k in gamepassCache ::
        exists g: string, s: int :: k == Gamepass.PassKey(g, s) && Gamepass.Reachable(s, gamepassCache[k])
    }

    /** A fresh process: the given hash function and four empty caches. */
    constructor (hash: string -> int)
      ensures this.hash == hash
      ensures emailCache == map[] && gamertagCache == map[] && profileCache == map[] && gamepassCache == map[]
      ensures Valid()
    {
      this.hash := hash;
      emailCache := map[];
      gamertagCache := map[];
      profileCache := map[];
      gamepassCache := map[];
    }

    /**
      `EmailValidator.get_domain_info`: the domain is lower-cased, a cached
      entry is returned as it is, otherwise the classification is computed
      and stored under the lower-cased domain. No other entry changes.
    */
    method GetDomainInfo(domain: string) returns (info: DomainInfo)
      requires Valid()
      modifies this`emailCache
      ensures Valid()
      ensures info == Classify(Lower(domain))
      ensures Lower(domain) in old(emailCache) ==> info == old(emailCache)[Lower(domain)]
      ensures emailCache == old(emailCache)[Lower(domain) := info]
    {
      var key := Lower(domain);
      if key in emailCache {
        info := emailCache[key];
        assert emailCache == emailCache[key := info];
        return;
      }
      info := Classify(key);
      emailCache := emailCache[key := info];
    }

    /**
      `FastXboxChecker.check_email`: an address that fails the shape check is
      rejected with empty parts and the fix suggestions; a valid one is
      reported with its parts, its domain information and its score.
    */
    method CheckEmail(email: string) returns (report: EmailReport)
      requires Valid()
      modifies this`emailCache
      ensures Valid()
      ensures report.Rejected? <==> !MatchesPattern(email)
      ensures report.Rejected? ==>
                report.username == "" && report.domain == "" && SuggestionsFit(email, report.suggestions)
                && emailCache == old(emailCache)
      ensures report.Accepted? ==>
                var v := Validate(email);
                var info := Classify(v.domain);
                && report == Accepted(v.username, v.domain, info.provider, info.kind, info.reliability, info.notes,
                                      EmailScore(v.username, v.domain))
                && emailCache == old(emailCache)[v.domain := info]
    {
      var v := Validate(email);
      if !v.ok {
        var suggestions := SuggestFix(email);
        report := Rejected(v.username, v.domain, suggestions);
        return;
      }
      LowerIdempotent(email[IndexOf(email, '@') + 1..]);
      var info := GetDomainInfo(v.domain);
      var score := CalculateEmailScore(v.username, v.domain);
      report := Accepted(v.username, v.domain, info.provider, info.kind, info.reliability, info.notes, score);
    }

    /**
      `FastXboxChecker.extract_gamertag`: the clean name is looked up first;
      on a miss the tag is derived with the given draws and stored under the
      clean name. Either way the stored tag is the one returned.
    */
    method ExtractGamertag(email: string, pick: int, roll: real, extra: int) returns (tag: string)
      requires Valid()
      requires Handles.DrawsFit(pick, roll, extra)
      modifies this`gamertagCache
      ensures Valid()
      ensures Handles.CleanName(email) in old(gamertagCache) ==> tag == old(gamertagCache)[Handles.CleanName(email)]
      ensures Handles.CleanName(email) !in old(gamertagCache) ==> tag == Handles.Derive(Handles.CleanName(email), pick, roll, extra)
      ensures gamertagCache == old(gamertagCache)[Handles.CleanName(email) := tag]
      ensures Handles.IsHandleFor(Handles.CleanName(email), tag)
    {
      var username := Split(email, '@')[0];
      var clean := Handles.Clean(username);
      if clean in gamertagCache {
        tag := gamertagCache[clean];
        assert gamertagCache == gamertagCache[clean := tag];
        return;
      }
      if |clean| < 3 {
        tag := clean + Handles.ShortSuffixes[pick];
      } else if IsAsciiDigit(clean[0]) {
        tag := "x" + clean;
      } else {
        tag := clean;
      }
      if |tag| < 12 && roll > 0.7 {
        tag := tag + Handles.ExtraSuffixes[extra];
      }
      assert tag == Handles.Derive(clean, pick, roll, extra);
      gamertagCache := gamertagCache[clean := tag];
    }

    /**
      `FastXboxChecker.get_profile_info`: a cached profile is returned as it
      is; otherwise one is synthesised for the gamertag's bucket with the
      given draws and stored, unless the games draw has an empty range, in
      which case the error is returned and nothing is stored.
    */
    method GetProfileInfo(gamertag: string, score: int, years: int, reputation: int, followers: int, games: int)
      returns (r: Profiles.Synthesis)
      requires Valid()
      requires Profiles.DrawsFit(Bucket(gamertag), score, years, reputation, followers, games)
      modifies this`profileCache
      ensures Valid()
      ensures gamertag in old(profileCache) ==> r == Profiles.Synthesised(old(profileCache)[gamertag])
      ensures gamertag !in old(profileCache) ==>
                r == Profiles.Synthesize(gamertag, Bucket(gamertag), score, years, reputation, followers, games)
      ensures profileCache == if r.Synthesised? then old(profileCache)[gamertag := r.profile] else old(profileCache)
      ensures r.Synthesised? ==> Profiles.Fits(gamertag, Bucket(gamertag), r.profile)
    {
      if gamertag in profileCache {
        r := Profiles.Synthesised(profileCache[gamertag]);
        assert profileCache == profileCache[gamertag := r.profile];
        return;
      }
      var bucket := Bucket(gamertag);
      r := Profiles.Synthesize(gamertag, bucket, score, years, reputation, followers, games);
      if r.Synthesised? {
        Profiles.SynthesisFits(gamertag, bucket, score, years, reputation, followers, games);
        profileCache := profileCache[gamertag := r.profile];
      }
    }

    /**
      `FastXboxChecker.check_gamepass_status`: the result is cached under
      `"gamertag:score"`; on a miss it is classified with the given draws and
      stored.
    */
    method CheckGamepassStatus(gamertag: string, score: int, rand: int, days: int) returns (gp: Gamepass.GamePass)
      requires Valid()
      requires Gamepass.DrawsFit(score, rand, days)
      modifies this`gamepassCache
      ensures Valid()
      ensures Gamepass.PassKey(gamertag, score) in old(gamepassCache) ==>
                gp == old(gamepassCache)[Gamepass.PassKey(gamertag, score)]
      ensures Gamepass.PassKey(gamertag, score) !in old(gamepassCache) ==> gp == Gamepass.Status(score, rand, days)
      ensures gamepassCache == old(gamepassCache)[Gamepass.PassKey(gamertag, score) := gp]
      ensures Gamepass.Reachable(score, gp)
    {
      var key := Gamepass.PassKey(gamertag, score);
      if key in gamepassCache {
        gp := gamepassCache[key];
        assert gamepassCache == gamepassCache[key := gp];
        ghost var g: string, s: int :| key == Gamepass.PassKey(g, s) && Gamepass.Reachable(s, gp);
        Gamepass.PassKeyInjective(g, s, gamertag, score);
        return;
      }
      gp := Gamepass.Status(score, rand, days);
      gamepassCache := gamepassCache[key := gp];
    }

    /** Every cached profile is valid, has an age in years and lies in its bucket's tier. */
    lemma CachedProfilesValid(g: string)
      requires Valid() && g in profileCache
      ensures profileCache[g].valid && profileCache[g].gamerscore >= 500
      ensures profileCache[g].tier == Profiles.TierOf(Bucket(g))
      ensures profileCache[g].age != "New account"
    {
      Profiles.SynthesisedIsValid(g, Bucket(g), profileCache[g]);
    }

    /** Every cached entitlement is well formed; one cached at a low score is never Ultimate. */
    lemma CachedPassesWellFormed(g: string, s: int)
      requires Valid() && Gamepass.PassKey(g, s) in gamepassCache
      ensures Gamepass.WellFormed(gamepassCache[Gamepass.PassKey(g, s)])
      ensures Gamepass.BracketOf(s) == Gamepass.Low ==> !gamepassCache[Gamepass.PassKey(g, s)].hasUltimate
    {
      var k := Gamepass.PassKey(g, s);
      var g': string, s': int :| k == Gamepass.PassKey(g', s') && Gamepass.Reachable(s', gamepassCache[k]);
      Gamepass.PassKeyInjective(g, s, g', s');
      Gamepass.ReachableShape(s, gamepassCache[k]);
    }

    /** Every cached gamertag has the shape the derivation promises for its clean name. */
    lemma CachedTagsShaped(c: string)
      requires Valid() && c in gamertagCache
      ensures AllAlnum(c)
      ensures |gamertagCache[c]| >= 1 && AllAlnum(gamertagCache[c])
      ensures |c| >= 3 && !IsAsciiDigit(c[0]) ==> c <= gamertagCache[c]
    {
      Handles.HandleShape(c, gamertagCache[c]);
    }
  }

  /**
    Memoisation as a caller sees it: asking again gives the same answer,
    whatever the random draws of either call, and two addresses with the
    same clean name share their gamertag. A profile is only stored when it was
    synthesised, so only then does the second call return the same one.
  */
  method RepeatedLookupsAgree(checker: FastXboxChecker, domain: string, e1: string, e2: string,
                              pick1: int, roll1: real, extra1: int, pick2: int, roll2: real, extra2: int,
                              t: string, score1: int, years1: int, reputation1: int, followers1: int, games1: int,
                              score2: int, years2: int, reputation2: int, followers2: int, games2: int,
                              g: string, score: int, rand1: int, days1: int, rand2: int, days2: int)
    returns (sameInfo: bool, sameTag: bool, sameProfile: bool, samePass: bool)
    requires checker.Valid()
    requires Handles.CleanName(e1) == Handles.CleanName(e2)
    requires Handles.DrawsFit(pick1, roll1, extra1) && Handles.DrawsFit(pick2, roll2, extra2)
    requires Profiles.DrawsFit(checker.Bucket(t), score1, years1, reputation1, followers1, games1)
    requires Profiles.DrawsFit(checker.Bucket(t), score2, years2, reputation2, followers2, games2)
    requires Gamepass.DrawsFit(score, rand1, days1) && Gamepass.DrawsFit(score, rand2, days2)
    modifies checker
    ensures sameInfo && sameTag && sameProfile && samePass
  {
    var i1 := checker.GetDomainInfo(domain);
    var i2 := checker.GetDomainInfo(domain);
    sameInfo := i1 == i2;
    var t1 := checker.ExtractGamertag(e1, pick1, roll1, extra1);
    var t2 := checker.ExtractGamertag(e2, pick2, roll2, extra2);
    sameTag := t1 == t2;
    var r1 := checker.GetProfileInfo(t, score1, years1, reputation1, followers1, games1);
    var r2 := checker.GetProfileInfo(t, score2, years2, reputation2, followers2, games2);
    sameProfile := r1.Synthesised? ==> r1 == r2;
    var p1 := checker.CheckGamepassStatus(g, score, rand1, days1);
    var p2 := checker.CheckGamepassStatus(g, score, rand2, days2);
    samePass := p1 == p2;
  }
}
