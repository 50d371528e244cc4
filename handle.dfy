/**
  Gamertag derivation: the local part of an address stripped to ASCII
  letters and digits, lengthened when short, prefixed when it starts with a
  digit, and sometimes given an extra suffix.
*/
module Handles {
  import opened Text

  /** `re.sub(r'[^a-zA-Z0-9]', '', s)`: only the ASCII letters and digits of `s`, in order. */
  function Clean(s: string): (r: string)
    ensures AllAlnum(r)
    ensures |r| <= |s|
  {
    if s == [] then [] else (if IsAsciiAlnum(s[0]) then [s[0]] else []) + Clean(s[1..])
  }

  /** Cleaning distributes over concatenation, so it is fixed by what it does to one character. */
  lemma {:induction false} CleanAppend(a: string, b: string)
    ensures Clean(a + b) == Clean(a) + Clean(b)
  {
    if a == [] {
      assert a + b == b;
    } else {
      var head := if IsAsciiAlnum(a[0]) then [a[0]] else [];
      assert (a + b)[0] == a[0] && (a + b)[1..] == a[1..] + b;
      assert Clean(a + b) == head + Clean(a[1..] + b);
      CleanAppend(a[1..], b);
      assert Clean(a) == head + Clean(a[1..]);
      assert head + (Clean(a[1..]) + Clean(b)) == (head + Clean(a[1..])) + Clean(b);
    }
  }

  /** A string of letters and digits is already clean, so cleaning is idempotent. */
  lemma {:induction false} CleanKeepsAlnum(s: string)
    requires AllAlnum(s)
    ensures Clean(s) == s
  {
    if s != [] {
      CleanKeepsAlnum(s[1..]);
    }
  }

  /** One character is kept exactly when it is an ASCII letter or digit. */
  lemma CleanOneChar(c: char)
    ensures IsAsciiAlnum(c) ==> Clean([c]) == [c]
    ensures !IsAsciiAlnum(c) ==> Clean([c]) == []
  {
    assert [c][1..] == [];
  }

  lemma CleanIdempotent(s: string)
    ensures Clean(Clean(s)) == Clean(s)
  {
    CleanKeepsAlnum(Clean(s));
  }

  /** The name the cache is keyed by: the cleaned text before the first `@`. */
  function CleanName(email: string): string
  {
    Clean(Split(email, '@')[0])
  }

  /** The suffixes `random.choice` picks from for a name shorter than three characters. */
  const ShortSuffixes: seq<string> := ["x", "gamer", "pro", "live"]

  /** The suffixes `random.choice` picks from for the optional extra suffix. */
  const ExtraSuffixes: seq<string> := ["123", "xbl", "gamertag"]

  /** The random draws one derivation consumes, in the ranges the generator returns them. */
  predicate DrawsFit(pick: int, roll: real, extra: int)
  {
    0 <= pick < |ShortSuffixes| && 0.0 <= roll < 1.0 && 0 <= extra < |ExtraSuffixes|
  }

  /** The tag before the optional extra suffix. */
  function Base(clean: string, pick: int): string
    requires 0 <= pick < |ShortSuffixes|
  {
    if |clean| < 3 then clean + ShortSuffixes[pick]
    else if IsAsciiDigit(clean[0]) then "x" + clean
    else clean
  }

  /** `extract_gamertag` on a cache miss, with the random draws made explicit. */
  function Derive(clean: string, pick: int, roll: real, extra: int): string
    requires DrawsFit(pick, roll, extra)
  {
    var base := Base(clean, pick);
    if |base| < 12 && roll > 0.7 then base + ExtraSuffixes[extra] else base
  }

  /** Some choice of draws derives `tag` from `clean`. */
  ghost predicate IsHandleFor(clean: string, tag: string)
  {
    exists pick: int, roll: real, extra: int | DrawsFit(pick, roll, extra) :: Derive(clean, pick, roll, extra) == tag
  }

  /**
    What the derivation promises: a short name is kept and followed by one of
    the short suffixes, a name starting with a digit is prefixed with `x`,
    any other name is kept as is; the extra suffix is added exactly when the
    tag so far is shorter than twelve characters and the draw exceeds 0.7.
    A tag built from a clean name is non-empty and all letters and digits.
  */
  lemma DeriveShape(clean: string, pick: int, roll: real, extra: int)
    requires DrawsFit(pick, roll, extra)
    ensures var tag := Derive(clean, pick, roll, extra);
      && (|clean| < 3 ==> clean + ShortSuffixes[pick] <= tag)
      && (|clean| >= 3 && IsAsciiDigit(clean[0]) ==> "x" + clean <= tag)
      && (|clean| >= 3 && !IsAsciiDigit(clean[0]) ==> clean <= tag)
      && (tag != Base(clean, pick) <==> |Base(clean, pick)| < 12 && roll > 0.7)
      && (tag != Base(clean, pick) ==> tag == Base(clean, pick) + ExtraSuffixes[extra] && |tag| <= 19)
      && |tag| >= 1
      && (AllAlnum(clean) ==> AllAlnum(tag))
  {
    var base := Base(clean, pick);
    var tag := Derive(clean, pick, roll, extra);
    assert base <= tag;
    assert ExtraSuffixes[extra] != [];
    assert |ShortSuffixes[pick]| >= 1;
    if AllAlnum(clean) {
      var sfx := ShortSuffixes[pick];
      assert AllAlnum(sfx) by {
        assert AllAlnum("x") && AllAlnum("gamer") && AllAlnum("pro") && AllAlnum("live");
      }
      assert AllAlnum(ExtraSuffixes[extra]) by {
        assert AllAlnum("123") && AllAlnum("xbl") && AllAlnum("gamertag");
      }
      assert AllAlnum(base);
    }
  }

  /** Every tag some choice of draws gives for a cache key has that shape. */
  lemma HandleShape(clean: string, tag: string)
    requires IsHandleFor(clean, tag)
    ensures |tag| >= 1
    ensures |clean| >= 3 && !IsAsciiDigit(clean[0]) ==> clean <= tag
    ensures |clean| >= 3 && IsAsciiDigit(clean[0]) ==> "x" + clean <= tag
    ensures |clean| < 3 ==> exists k | 0 <= k < |ShortSuffixes| :: clean + ShortSuffixes[k] <= tag
    ensures AllAlnum(clean) ==> AllAlnum(tag)
  {
    var pick: int, roll: real, extra: int :| DrawsFit(pick, roll, extra) && Derive(clean, pick, roll, extra) == tag;
    DeriveShape(clean, pick, roll, extra);
  }

  /** The examples: a short name, a name starting with a digit, and a long name that gets no extra suffix. */
  lemma DeriveExamples(a: string, b: string, c: string)
    requires a == "ab" && b == "7up" && c == "abcdefghijkl"
    ensures Derive(a, 1, 0.9, 0) == "abgamer123"
    ensures Derive(b, 0, 0.5, 2) == "x7up"
    ensures Derive(c, 0, 0.99, 1) == c
  {
    assert ShortSuffixes[1] == "gamer";
  }

  lemma CleanExample(u: string)
    requires u == "j.9"
    ensures Clean(u) == "j9"
  {
    assert u == "j" + "." + "9";
    CleanAppend("j" + ".", "9");
    CleanAppend("j", ".");
  }

  /** `CleanName` of an address drops the domain and the punctuation of the user name. */
  lemma CleanNameExample(e: string)
    requires e == "j.9@mail.com"
    ensures CleanName(e) == "j9"
  {
    var u := "j.9";
    assert e == u + ['@'] + "mail.com";
    SplitAround(u, '@', "mail.com");
    CleanExample(u);
  }
}
