/**
  Entitlement classification: the gamerscore picks a bracket, a draw from
  1..100 picks an outcome on that bracket's percentile ladder, and a second
  draw the number of days until a granted pass expires. Results are keyed
  by `"gamertag:score"`.
*/
module Gamepass {
  import opened Text

  /** When the pass ends: a number of days from now, or `"N/A"`. */
  datatype Expiry = NotApplicable | DaysFromNow(days: int)

  /** The result dictionary: `has_gamepass`, `has_ultimate`, `type` and `expiry`. */
  datatype GamePass = GamePass(hasGamepass: bool, hasUltimate: bool, kind: string, expiry: Expiry)

  /** Ultimate implies a pass, and exactly the entitlements without a pass have no expiry. */
  predicate WellFormed(gp: GamePass)
  {
    (gp.hasUltimate ==> gp.hasGamepass) && (gp.expiry.NotApplicable? <==> !gp.hasGamepass)
  }

  /** The score brackets: above 50000, above 20000, above 5000, and the rest. */
  datatype Bracket = Top | High | Mid | Low

  function BracketOf(score: int): Bracket
  {
    if score > 50000 then Top else if score > 20000 then High else if score > 5000 then Mid else Low
  }

  /** The outcomes a ladder can give. */
  datatype Grant = Ultimate | Pass | Gold | Standard | Trial

  /** One step of a percentile ladder: draws up to `upTo` that passed the earlier steps get `grant`. */
  datatype Rung = Rung(upTo: int, grant: Grant)

  /** Each bracket's percentile ladder, as a table. */
  function Ladder(b: Bracket): seq<Rung>
  {
    match b
    case Top => [Rung(40, Ultimate), Rung(70, Pass), Rung(100, Gold)]
    case High => [Rung(25, Ultimate), Rung(60, Pass), Rung(100, Standard)]
    case Mid => [Rung(10, Ultimate), Rung(30, Pass), Rung(100, Standard)]
    case Low => [Rung(5, Trial), Rung(100, Standard)]
  }

  /** The first rung whose threshold the draw does not exceed; the last rung catches the rest. */
  function Lookup(rungs: seq<Rung>, rand: int): Grant
    requires rungs != []
  {
    if |rungs| == 1 || rand <= rungs[0].upTo then rungs[0].grant else Lookup(rungs[1..], rand)
  }

  function GrantOf(score: int, rand: int): Grant
  {
    Lookup(Ladder(BracketOf(score)), rand)
  }

  /** Outcomes that come with a drawn number of days. */
  predicate Dated(g: Grant) { g == Ultimate || g == Pass }

  /** The range the days until expiry are drawn from. */
  function DaysRange(b: Bracket, g: Grant): Range
    requires Dated(g) && b != Low
  {
    match b
    case Top => if g == Ultimate then Range(15, 45) else Range(10, 30)
    case High => if g == Ultimate then Range(10, 30) else Range(5, 20)
    case Mid => if g == Ultimate then Range(5, 15) else Range(1, 10)
  }

  /** The draws of one classification: the percentile in 1..100 and, for a dated outcome, the days. */
  predicate DrawsFit(score: int, rand: int, days: int)
  {
    && 1 <= rand <= 100
    && (BracketOf(score) != Low && Dated(GrantOf(score, rand)) ==> DaysRange(BracketOf(score), GrantOf(score, rand)).Has(days))
  }

  /** The dictionary each outcome produces. */
  function Entitlement(g: Grant, days: int): GamePass
  {
    match g
    case Ultimate => GamePass(true, true, "Xbox Game Pass Ultimate", DaysFromNow(days))
    case Pass => GamePass(true, false, "Xbox Game Pass", DaysFromNow(days))
    case Gold => GamePass(false, false, "Xbox Live Gold", NotApplicable)
    case Standard => GamePass(false, false, "Standard", NotApplicable)
    case Trial => GamePass(true, false, "Xbox Game Pass (Trial)", DaysFromNow(14))
  }

  /** `check_gamepass_status` on a cache miss, branch by branch, with the draws made explicit. */
  function Status(score: int, rand: int, days: int): (gp: GamePass)
    requires DrawsFit(score, rand, days)
    ensures WellFormed(gp)
    ensures BracketOf(score) == Low ==> !gp.hasUltimate && (gp.hasGamepass <==> rand <= 5)
    ensures BracketOf(score) == Low && gp.hasGamepass ==> gp.expiry == DaysFromNow(14)
    ensures gp.hasUltimate <==> gp.kind == "Xbox Game Pass Ultimate"
  {
    if score > 50000 then
      if rand <= 40 then GamePass(true, true, "Xbox Game Pass Ultimate", DaysFromNow(days))
      else if rand <= 70 then GamePass(true, false, "Xbox Game Pass", DaysFromNow(days))
      else GamePass(false, false, "Xbox Live Gold", NotApplicable)
    else if score > 20000 then
      if rand <= 25 then GamePass(true, true, "Xbox Game Pass Ultimate", DaysFromNow(days))
      else if rand <= 60 then GamePass(true, false, "Xbox Game Pass", DaysFromNow(days))
      else GamePass(false, false, "Standard", NotApplicable)
    else if score > 5000 then
      if rand <= 10 then GamePass(true, true, "Xbox Game Pass Ultimate", DaysFromNow(days))
      else if rand <= 30 then GamePass(true, false, "Xbox Game Pass", DaysFromNow(days))
      else GamePass(false, false, "Standard", NotApplicable)
    else
      if rand <= 5 then GamePass(true, false, "Xbox Game Pass (Trial)", DaysFromNow(14))
      else GamePass(false, false, "Standard", NotApplicable)
  }

  /** The branches of `Status` are exactly the table: the bracket's ladder picks the outcome. */
  lemma StatusFollowsLadder(score: int, rand: int, days: int)
    requires DrawsFit(score, rand, days)
    ensures Status(score, rand, days) == Entitlement(GrantOf(score, rand), days)
  {
    var r := Ladder(BracketOf(score));
    if BracketOf(score) == Low {
      LookupTwo(r[0], r[1], rand);
    } else {
      LookupThree(r[0], r[1], r[2], rand);
    }
  }

  lemma LookupTwo(a: Rung, b: Rung, rand: int)
    ensures Lookup([a, b], rand) == if rand <= a.upTo then a.grant else b.grant
  {
    assert [a, b][1..] == [b];
  }

  lemma LookupThree(a: Rung, b: Rung, c: Rung, rand: int)
    ensures Lookup([a, b, c], rand) == if rand <= a.upTo then a.grant else if rand <= b.upTo then b.grant else c.grant
  {
    assert [a, b, c][1..] == [b, c];
    LookupTwo(b, c, rand);
  }

  /** The thresholds of a ladder rise strictly from above 0 to 100. */
  predicate Rising(rungs: seq<Rung>)
  {
    && rungs != []
    && 0 < rungs[0].upTo
    && rungs[|rungs| - 1].upTo == 100
    && forall i | 0 < i < |rungs| :: rungs[i - 1].upTo < rungs[i].upTo
  }

  /** The draws that rung `i` receives. */
  predicate Covers(rungs: seq<Rung>, i: int, rand: int)
  {
    0 <= i < |rungs| && (i == 0 || rungs[i - 1].upTo < rand) && rand <= rungs[i].upTo
  }

  lemma LaddersRise(b: Bracket)
    ensures Rising(Ladder(b))
  {
  }

  /**
    On a rising ladder every draw in 1..100 falls on exactly one rung, and the
    lookup gives that rung's outcome: the nested thresholds never overlap.
  */
  lemma {:induction false} LookupCovers(rungs: seq<Rung>, rand: int)
    requires Rising(rungs) && 1 <= rand <= 100
    ensures exists i :: Covers(rungs, i, rand)
    ensures forall i, j | Covers(rungs, i, rand) && Covers(rungs, j, rand) :: i == j
    ensures forall i | Covers(rungs, i, rand) :: Lookup(rungs, rand) == rungs[i].grant
  {
    RisingOrdered(rungs);
    if |rungs| == 1 || rand <= rungs[0].upTo {
      assert Covers(rungs, 0, rand);
      forall i | Covers(rungs, i, rand) ensures i == 0 { }
    } else {
      var rest := rungs[1..];
      assert Rising(rest) by {
        forall i | 0 < i < |rest| ensures rest[i - 1].upTo < rest[i].upTo {
          assert rest[i - 1] == rungs[i] && rest[i] == rungs[i + 1];
        }
      }
      LookupCovers(rest, rand);
      var k :| Covers(rest, k, rand);
      assert Covers(rungs, k + 1, rand);
      forall i | Covers(rungs, i, rand) ensures i == k + 1 {
        assert i > 0;
        assert Covers(rest, i - 1, rand);
      }
    }
  }

  /** The thresholds of a rising ladder are ordered by position. */
  lemma RisingOrdered(rungs: seq<Rung>)
    requires Rising(rungs)
    ensures forall i, j | 0 <= i <= j < |rungs| :: rungs[i].upTo <= rungs[j].upTo
  {
    forall i, j | 0 <= i <= j < |rungs| ensures rungs[i].upTo <= rungs[j].upTo {
      var k := i;
      while k < j
        invariant i <= k <= j && rungs[i].upTo <= rungs[k].upTo
      {
        k := k + 1;
      }
    }
  }

  predicate Between(lo: int, hi: int, r: int) { lo <= r <= hi }

  /** The draws `lo`, …, `hi`. */
  function Span(lo: int, hi: int): set<int>
  {
    set r | lo <= r <= hi && Between(lo, hi, r)
  }

  lemma {:induction false} SpanSize(lo: int, hi: int)
    requires lo <= hi + 1
    ensures |Span(lo, hi)| == hi - lo + 1
    decreases hi - lo
  {
    if lo <= hi {
      assert Span(lo, hi) == Span(lo, hi - 1) + {hi};
      SpanSize(lo, hi - 1);
    } else {
      assert Span(lo, hi) == {};
    }
  }

  /** The draws in 1..100 that give `g` at this score. */
  function DrawsGiving(score: int, g: Grant): set<int>
  {
    set r | r in Span(1, 100) && GrantOf(score, r) == g
  }

  /** In the top bracket 40 of the 100 equally likely draws give Ultimate, 30 Game Pass and 30 Live Gold. */
  lemma TopShares(top: int)
    requires BracketOf(top) == Top
    ensures |DrawsGiving(top, Ultimate)| == 40
    ensures |DrawsGiving(top, Pass)| == 30
    ensures |DrawsGiving(top, Gold)| == 30
  {
    var l := Ladder(Top);
    forall r ensures GrantOf(top, r) == if r <= 40 then Ultimate else if r <= 70 then Pass else Gold {
      LookupThree(l[0], l[1], l[2], r);
    }
    assert DrawsGiving(top, Ultimate) == Span(1, 40);
    assert DrawsGiving(top, Pass) == Span(41, 70);
    assert DrawsGiving(top, Gold) == Span(71, 100);
    SpanSize(1, 40);
    SpanSize(41, 70);
    SpanSize(71, 100);
  }

  /** In the lowest bracket 5 of the 100 draws give the trial and 95 nothing. */
  lemma LowShares(low: int)
    requires BracketOf(low) == Low
    ensures |DrawsGiving(low, Trial)| == 5
    ensures |DrawsGiving(low, Standard)| == 95
  {
    var l := Ladder(Low);
    forall r ensures GrantOf(low, r) == if r <= 5 then Trial else Standard {
      LookupTwo(l[0], l[1], r);
    }
    assert DrawsGiving(low, Trial) == Span(1, 5);
    assert DrawsGiving(low, Standard) == Span(6, 100);
    SpanSize(1, 5);
    SpanSize(6, 100);
  }

  /** Some choice of draws gives `gp` at this score. */
  ghost predicate Reachable(score: int, gp: GamePass)
  {
    exists rand: int, days: int | DrawsFit(score, rand, days) :: Status(score, rand, days) == gp
  }

  /** Every stored entitlement is well formed, and one at a low score is never Ultimate. */
  lemma ReachableShape(score: int, gp: GamePass)
    requires Reachable(score, gp)
    ensures WellFormed(gp)
    ensures BracketOf(score) == Low ==> !gp.hasUltimate
    ensures gp.hasGamepass ==> gp.expiry.DaysFromNow? && 1 <= gp.expiry.days <= 45
  {
    var rand: int, days: int :| DrawsFit(score, rand, days) && Status(score, rand, days) == gp;
    StatusFollowsLadder(score, rand, days);
  }

  /** The cache key `f"{gamertag}:{gamerscore}"`. */
  function PassKey(gamertag: string, score: int): string
  {
    gamertag + ":" + IntToString(score)
  }

  /**
    The key loses nothing: since `str(score)` has no colon, the last colon of
    a key separates the gamertag (which may itself contain colons) from the
    score, so different pairs never share a cache entry.
  */
  lemma PassKeyInjective(g1: string, s1: int, g2: string, s2: int)
    requires PassKey(g1, s1) == PassKey(g2, s2)
    ensures g1 == g2 && s1 == s2
  {
    var k := PassKey(g1, s1);
    assert k == g1 + [':'] + IntToString(s1);
    assert k == g2 + [':'] + IntToString(s2);
    LastIndexOfAround(g1, ':', IntToString(s1));
    LastIndexOfAround(g2, ':', IntToString(s2));
    assert g1 == k[..|g1|] == g2;
    assert IntToString(s1) == k[|g1| + 1..] == IntToString(s2);
    IntToStringInjective(s1, s2);
  }
}
