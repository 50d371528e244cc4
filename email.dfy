/**
  The email validator: the shape check of
  `^[a-zA-Z0-9._%+-]+@[a-zA-Z0-9.-]+\.[a-zA-Z]{2,}$` under `re.match`,
  the split into user name and lower-cased domain, the substring
  classification of the domain, the fix suggestions for malformed
  addresses and the additive email quality score.
*/
module EmailRules {
  import opened Text

  // ---------------------------------------------------------------------
  // The shape check
  // ---------------------------------------------------------------------

  /** `[a-zA-Z0-9._%+-]` */
  predicate IsLocalChar(c: char) { IsAsciiAlnum(c) || c == '.' || c == '_' || c == '%' || c == '+' || c == '-' }

  /** `[a-zA-Z0-9.-]` */
  predicate IsDomainChar(c: char) { IsAsciiAlnum(c) || c == '.' || c == '-' }

  predicate AllLocal(s: string) { forall i | 0 <= i < |s| :: IsLocalChar(s[i]) }

  predicate AllDomain(s: string) { forall i | 0 <= i < |s| :: IsDomainChar(s[i]) }

  predicate AllLetters(s: string) { forall i | 0 <= i < |s| :: IsAsciiLetter(s[i]) }

  /** `[a-zA-Z0-9.-]+\.[a-zA-Z]{2,}` matches `d` when split at the dot at position `k`. */
  predicate DomainSplitAt(d: string, k: int)
  {
    0 < k < |d| - 2 && d[k] == '.' && AllDomain(d[..k]) && AllLetters(d[k + 1..])
  }

  /** `[a-zA-Z0-9.-]+\.[a-zA-Z]{2,}` matching the whole of `d`. */
  predicate DomainPart(d: string)
  {
    exists k | 0 < k < |d| - 2 :: DomainSplitAt(d, k)
  }

  /** The address splits into a local part and a domain part at the `@` at position `a`. */
  predicate AddressSplitAt(s: string, a: int)
  {
    0 < a < |s| && s[a] == '@' && AllLocal(s[..a]) && DomainPart(s[a + 1..])
  }

  /** The pattern without its end anchor, matching the whole of `s`. */
  predicate FullMatch(s: string)
  {
    exists a | 0 < a < |s| :: AddressSplitAt(s, a)
  }

  /**
    `re.match(pattern, s)` succeeds: Python's `$` matches at the end of the
    string and also just before a single newline that ends it.
  */
  predicate MatchesPattern(s: string)
  {
    FullMatch(s) || (|s| > 0 && s[|s| - 1] == '\n' && FullMatch(s[..|s| - 1]))
  }

  lemma DomainPartShape(d: string)
    requires DomainPart(d)
    ensures '@' !in d && '.' in d
  {
    var k :| 0 < k < |d| - 2 && DomainSplitAt(d, k);
    forall j | 0 <= j < |d| ensures d[j] != '@' {
      if j < k {
        assert d[..k][j] == d[j];
        assert IsDomainChar(d[..k][j]);
      } else if j > k {
        assert d[k + 1..][j - k - 1] == d[j];
        assert IsAsciiLetter(d[k + 1..][j - k - 1]);
      }
    }
  }

  lemma AllLocalNoAt(s: string, a: nat)
    requires a <= |s| && AllLocal(s[..a])
    ensures '@' !in s[..a]
    ensures forall i | 0 <= i < a :: s[i] != '@'
  {
    forall i | 0 <= i < a ensures s[i] != '@' { assert IsLocalChar(s[..a][i]); }
  }

  /**
    The facts about a matching address that `validate` relies on: exactly one
    `@`, at position at least 1, only local-part characters before it and a
    dot after it.
  */
  predicate AtShape(s: string)
  {
    '@' in s && Occurrences(s, '@') == 1 && IndexOf(s, '@') >= 1
    && '.' in s[IndexOf(s, '@') + 1..] && AllLocal(s[..IndexOf(s, '@')])
  }

  lemma FullMatchShape(s: string)
    requires FullMatch(s)
    ensures AtShape(s)
  {
    var a :| 0 < a < |s| && AddressSplitAt(s, a);
    var d := s[a + 1..];
    DomainPartShape(d);
    AllLocalNoAt(s, a);
    assert s == s[..a] + [s[a]] + d;
    OccurrencesAppend(s[..a] + [s[a]], d, '@');
    OccurrencesAppend(s[..a], [s[a]], '@');
    IndexOfFirst(s, '@', a);
  }

  /** Appending a character other than `@` keeps the shape. */
  lemma AtShapeAppend(t: string, c: char)
    requires AtShape(t) && c != '@'
    ensures AtShape(t + [c])
  {
    var s := t + [c];
    var j := IndexOf(t, '@');
    OccurrencesAppend(t, [c], '@');
    assert s[..j] == t[..j] && s[j] == '@';
    assert forall k | 0 <= k < j :: s[k] == t[k];
    IndexOfFirst(s, '@', j);
    assert s[j + 1..] == t[j + 1..] + [c];
  }

  /** A matching address has exactly one `@`, a non-empty user name of local-part characters and a dot after the `@`. */
  lemma MatchShape(s: string)
    requires MatchesPattern(s)
    ensures AtShape(s)
  {
    if FullMatch(s) {
      FullMatchShape(s);
    } else {
      NewlineShape(s);
    }
  }

  /** A full match followed by the newline that `$` lets through keeps the shape. */
  lemma NewlineShape(s: string)
    requires |s| > 0 && s[|s| - 1] == '\n' && FullMatch(s[..|s| - 1])
    ensures AtShape(s)
  {
    var t := s[..|s| - 1];
    assert s == t + ['\n'];
    FullMatchShape(t);
    AtShapeAppend(t, '\n');
  }

  // ---------------------------------------------------------------------
  // validate
  // ---------------------------------------------------------------------

  /** The triple `(is_valid, username, domain)`. */
  datatype Validation = Validation(ok: bool, username: string, domain: string)

  /**
    `EmailValidator.validate`: a failed shape check gives `(False, "", "")`;
    otherwise the text before the one `@` and the lower-cased rest.
  */
  function Validate(email: string): (v: Validation)
    ensures v.ok <==> MatchesPattern(email)
    ensures !v.ok ==> v == Validation(false, "", "")
    ensures v.ok ==> '@' in email && Occurrences(email, '@') == 1
    ensures v.ok ==> v.username == email[..IndexOf(email, '@')] && |v.username| >= 1 && AllLocal(v.username)
    ensures v.ok ==> v.domain == Lower(email[IndexOf(email, '@') + 1..])
  {
    if !MatchesPattern(email) then Validation(false, "", "")
    else
      MatchShape(email);
      SplitOnce(email, '@');
      var parts := Split(email, '@');
      if |parts| != 2 then Validation(false, "", "")
      else Validation(true, parts[0], Lower(parts[1]))
  }

  /** An address that splits at its `@` validates to the two sides, the domain lower-cased. */
  lemma ValidateSplit(email: string, a: nat)
    requires AddressSplitAt(email, a)
    ensures Validate(email) == Validation(true, email[..a], Lower(email[a + 1..]))
  {
    assert FullMatch(email);
    AllLocalNoAt(email, a);
    IndexOfFirst(email, '@', a);
  }

  /** The same when the split address is followed by the one newline `$` lets through. */
  lemma ValidateSplitNewline(email: string, a: nat)
    requires |email| > 0 && email[|email| - 1] == '\n' && AddressSplitAt(email[..|email| - 1], a)
    ensures Validate(email) == Validation(true, email[..a], Lower(email[a + 1..]))
  {
    var t := email[..|email| - 1];
    assert FullMatch(t);
    AllLocalNoAt(t, a);
    assert forall k | 0 <= k < a :: email[k] == t[k];
    IndexOfFirst(email, '@', a);
  }

  /** An address written as a user name, `@` and a domain validates to those two parts. */
  lemma ValidateParts(e: string, u: string, d: string)
    requires e == u + ['@'] + d && AddressSplitAt(e, |u|)
    ensures Validate(e) == Validation(true, u, Lower(d))
  {
    assert e[..|u|] == u;
    assert e[|u| + 1..] == d;
    ValidateSplit(e, |u|);
  }

  /** `user` and `gmail.com` around the `@`: a local part and a dotted domain, for either spelling. */
  lemma GmailSplits(email: string)
    requires email == "user@gmail.com" || email == "User@GMAIL.COM"
    ensures AddressSplitAt(email, 4)
  {
    var d := email[5..];
    assert DomainSplitAt(d, 5) by {
      forall i | 0 <= i < 5 ensures IsDomainChar(d[..5][i]) { }
      forall i | 0 <= i < 3 ensures IsAsciiLetter(d[6..][i]) { }
    }
    forall i | 0 <= i < 4 ensures IsLocalChar(email[..4][i]) { }
  }

  lemma LowerGmail(s: string)
    requires s == "GMAIL.COM"
    ensures Lower(s) == "gmail.com"
  {
    var r := Lower(s);
    assert r[0] == LowerChar(s[0]) == 'g';
    assert r[1] == LowerChar(s[1]) == 'm';
    assert r[2] == LowerChar(s[2]) == 'a';
    assert r[3] == LowerChar(s[3]) == 'i';
    assert r[4] == LowerChar(s[4]) == 'l';
    assert r[5] == LowerChar(s[5]) == '.';
    assert r[6] == LowerChar(s[6]) == 'c';
    assert r[7] == LowerChar(s[7]) == 'o';
    assert r[8] == LowerChar(s[8]) == 'm';
  }

  lemma LowerKeeps(s: string)
    requires s == "gmail.com"
    ensures Lower(s) == s
  {
    assert IsLower(s);
    LowerIdempotent(s);
  }

  /** A valid address is accepted with its parts. */
  lemma ValidateAcceptsLower(e: string)
    requires e == "user@gmail.com"
    ensures Validate(e) == Validation(true, "user", "gmail.com")
  {
    GmailSplits(e);
    ValidateParts(e, "user", "gmail.com");
    LowerKeeps("gmail.com");
  }

  /** The domain is lower-cased, the user name is kept as written. */
  lemma ValidateAcceptsMixed(e: string)
    requires e == "User@GMAIL.COM"
    ensures Validate(e) == Validation(true, "User", "gmail.com")
  {
    GmailSplits(e);
    ValidateParts(e, "User", "GMAIL.COM");
    LowerGmail("GMAIL.COM");
  }

  lemma ShortSplits()
    ensures AddressSplitAt("a@b.co", 1)
  {
    var t := "a@b.co";
    assert DomainSplitAt("b.co", 1) by { assert "b.co"[..1] == "b" && "b.co"[2..] == "co"; }
    assert t[2..] == "b.co";
    assert t[..1] == "a";
  }

  /** A matching address followed by a newline validates to the same user name and the domain with the newline. */
  lemma ValidateNewlineParts(e: string, u: string, d: string)
    requires e == u + ['@'] + d + ['\n'] && AddressSplitAt(e[..|e| - 1], |u|)
    ensures Validate(e) == Validation(true, u, Lower(d + ['\n']))
  {
    assert e[..|u|] == u;
    assert e[|u| + 1..] == d + ['\n'];
    ValidateSplitNewline(e, |u|);
  }

  /** `$` also matches before a final newline, so the newline ends up in the domain. */
  lemma ValidateKeepsTrailingNewline(e: string)
    requires e == "a@b.co\n"
    ensures Validate(e) == Validation(true, "a", "b.co\n")
  {
    ShortSplits();
    assert e[..|e| - 1] == "a@b.co";
    ValidateNewlineParts(e, "a", "b.co");
    assert "b.co" + ['\n'] == "b.co\n";
    LowerKeepsNewline("b.co\n");
  }

  lemma LowerKeepsNewline(s: string)
    requires s == "b.co\n"
    ensures Lower(s) == s
  {
    assert IsLower(s);
    LowerIdempotent(s);
  }

  lemma NoAtNoFullMatch(s: string)
    requires '@' !in s
    ensures !FullMatch(s)
  {
    forall a | 0 < a < |s| ensures !AddressSplitAt(s, a) {
      assert s[a] in s;
    }
  }

  /** The domain of a split address holds a dot. */
  lemma SplitHasDot(s: string, a: int)
    ensures AddressSplitAt(s, a) ==> '.' in s[a + 1..] && '.' in s
  {
    if AddressSplitAt(s, a) {
      DomainPartShape(s[a + 1..]);
      var j :| 0 <= j < |s[a + 1..]| && s[a + 1..][j] == '.';
      assert s[a + 1 + j] == '.';
    }
  }

  lemma NoDotNoFullMatch(s: string)
    requires '.' !in s
    ensures !FullMatch(s)
  {
    forall a | 0 < a < |s| ensures !AddressSplitAt(s, a) {
      SplitHasDot(s, a);
    }
  }

  /** An address without `@` is rejected, with or without a final newline. */
  lemma NoAtRejected(e: string)
    requires '@' !in e
    ensures !Validate(e).ok
  {
    NoAtNoFullMatch(e);
    if |e| > 0 {
      assert e == e[..|e| - 1] + [e[|e| - 1]];
      NoAtNoFullMatch(e[..|e| - 1]);
    }
  }

  /** An address without a dot is rejected: the domain must hold one. */
  lemma NoDotRejected(e: string)
    requires '.' !in e
    ensures !Validate(e).ok
  {
    NoDotNoFullMatch(e);
    if |e| > 0 {
      assert e == e[..|e| - 1] + [e[|e| - 1]];
      NoDotNoFullMatch(e[..|e| - 1]);
    }
  }

  /** An address without `@` is rejected. */
  lemma ValidateRejectsNoAt(e: string)
    requires e == "noatsign"
    ensures !Validate(e).ok
  {
    NoAtRejected(e);
  }

  /** An address whose domain has no dot is rejected. */
  lemma ValidateRejectsNoDot(e: string)
    requires e == "a@b"
    ensures !Validate(e).ok
  {
    NoDotRejected(e);
  }

  /** A one-letter top-level part is rejected: `[a-zA-Z]{2,}` needs two letters. */
  lemma ValidateRejectsShortTld(e: string)
    requires e == "a@b.c"
    ensures !Validate(e).ok
  {
    forall a | 0 < a < |e| ensures !AddressSplitAt(e, a) {
      if a == 1 { assert |e[2..]| == 3; } else { assert e[a] != '@'; }
    }
    assert e[|e| - 1] != '\n';
  }

  // ---------------------------------------------------------------------
  // get_domain_info
  // ---------------------------------------------------------------------

  datatype Provider = Google | Microsoft | Yahoo | ProtonMail | Apple | Other

  /** Position of a provider in the order in which the classifier tries them. */
  function Rank(p: Provider): nat
  {
    match p
    case Google => 0
    case Microsoft => 1
    case Yahoo => 2
    case ProtonMail => 3
    case Apple => 4
    case Other => 5
  }

  /** The substrings that identify each provider in a lower-cased domain. */
  predicate Mentions(domain: string, p: Provider)
  {
    match p
    case Google => Contains(domain, "gmail") || Contains(domain, "google")
    case Microsoft => Contains(domain, "hotmail") || Contains(domain, "outlook") || Contains(domain, "live")
    case Yahoo => Contains(domain, "yahoo")
    case ProtonMail => Contains(domain, "proton")
    case Apple => Contains(domain, "icloud") || Contains(domain, "me.com") || Contains(domain, "mac.com")
    case Other => false
  }

  /**
    The priority-ordered classification: the provider is the first one, in
    rank order, whose markers occur in the domain, and Other when none does.
  */
  function ProviderOf(domain: string): (p: Provider)
    ensures p != Other ==> Mentions(domain, p)
    ensures forall q: Provider | Rank(q) < Rank(p) :: !Mentions(domain, q)
  {
    if Mentions(domain, Google) then Google
    else if Mentions(domain, Microsoft) then Microsoft
    else if Mentions(domain, Yahoo) then Yahoo
    else if Mentions(domain, ProtonMail) then ProtonMail
    else if Mentions(domain, Apple) then Apple
    else Other
  }

  /** The dictionary `get_domain_info` returns: provider, type, reliability and notes. */
  datatype DomainInfo = DomainInfo(provider: string, kind: string, reliability: string, notes: string)

  function InfoOf(p: Provider): DomainInfo
  {
    match p
    case Google => DomainInfo("Google", "Free", "High", "Works best with Xbox")
    case Microsoft => DomainInfo("Microsoft", "Free", "Excellent", "Best for Xbox accounts")
    case Yahoo => DomainInfo("Yahoo", "Free", "Good", "May need app password")
    case ProtonMail => DomainInfo("ProtonMail", "Secure", "Good", "Encrypted email")
    case Apple => DomainInfo("Apple", "Premium", "High", "Apple ID required")
    case Other => DomainInfo("Other", "Unknown", "Variable", "May work with Xbox")
  }

  /** The value computed on a cache miss for an already lower-cased domain. */
  function Classify(domain: string): DomainInfo
  {
    InfoOf(ProviderOf(domain))
  }

  /** Different providers carry different information, so the provider can be read back from it. */
  lemma InfoOfInjective(p: Provider, q: Provider)
    requires InfoOf(p) == InfoOf(q)
    ensures p == q
  {
  }

  /** Google is tried first, so a Google domain mentioning `live` is still Google. */
  lemma ProviderGoogleFirst(d: string)
    requires d == "live.google.com"
    ensures ProviderOf(d) == Google
  {
    assert OccursAt(d, "google", 5);
  }

  lemma ProviderGmail(d: string)
    requires d == "gmail.com"
    ensures ProviderOf(d) == Google
  {
    assert OccursAt(d, "gmail", 0);
  }

  /** Matching is by substring, not by the whole domain: any `outlook` domain is Microsoft. */
  lemma ProviderOutlook(d: string)
    requires d == "outlook.fr"
    ensures ProviderOf(d) == Microsoft
  {
    assert OccursAt(d, "outlook", 0);
    AbsentCharNotContained(d, "gmail", 'g');
    AbsentCharNotContained(d, "google", 'g');
  }

  /** The loose `me.com` test classifies an unrelated domain ending in `me.com` as Apple. */
  lemma ProviderLooseApple(d: string)
    requires d == "acme.com"
    ensures ProviderOf(d) == Apple
  {
    assert OccursAt(d, "me.com", 2);
    AbsentCharNotContained(d, "gmail", 'g');
    AbsentCharNotContained(d, "google", 'g');
    AbsentCharNotContained(d, "hotmail", 'h');
    AbsentCharNotContained(d, "outlook", 'u');
    AbsentCharNotContained(d, "live", 'l');
    AbsentCharNotContained(d, "yahoo", 'y');
    AbsentCharNotContained(d, "proton", 'p');
    AbsentCharNotContained(d, "icloud", 'i');
  }

  /** A domain with none of the letters `g`, `a`, `u`, `l`, `y`, `p`, `i`, `e` mentions no provider. */
  lemma MentionsNone(d: string)
    requires 'g' !in d && 'a' !in d && 'u' !in d && 'l' !in d
    requires 'y' !in d && 'p' !in d && 'i' !in d && 'e' !in d
    ensures ProviderOf(d) == Other
  {
    AbsentCharNotContained(d, "gmail", 'g');
    AbsentCharNotContained(d, "google", 'g');
    AbsentCharNotContained(d, "hotmail", 'a');
    AbsentCharNotContained(d, "outlook", 'u');
    AbsentCharNotContained(d, "live", 'l');
    AbsentCharNotContained(d, "yahoo", 'y');
    AbsentCharNotContained(d, "proton", 'p');
    AbsentCharNotContained(d, "icloud", 'i');
    AbsentCharNotContained(d, "me.com", 'e');
    AbsentCharNotContained(d, "mac.com", 'a');
  }

  /** A domain mentioning none of the providers is Other. */
  lemma ProviderOther(d: string)
    requires d == "zoho.com"
    ensures ProviderOf(d) == Other
  {
    MentionsNone(d);
  }

  // ---------------------------------------------------------------------
  // suggest_fix
  // ---------------------------------------------------------------------

  const CommonDomains: seq<string> := ["@gmail.com", "@hotmail.com", "@outlook.com"]

  /** One `"Try: " + email + d` completion per domain `d`, in order. */
  function Completions(email: string, domains: seq<string>): (r: seq<string>)
    ensures |r| == |domains|
  {
    if domains == [] then []
    else Completions(email, domains[..|domains| - 1]) + ["Try: " + email + domains[|domains| - 1]]
  }

  lemma {:induction false} CompletionsAt(email: string, domains: seq<string>, j: nat)
    requires j < |domains|
    ensures Completions(email, domains)[j] == "Try: " + email + domains[j]
  {
    if j < |domains| - 1 {
      CompletionsAt(email, domains[..|domains| - 1], j);
    }
  }

  /**
    What `suggest_fix` returns: with no `@`, the hint to add one and one
    completion per common domain, in order; else, when the segment after the
    first `@` has no dot, the hint naming that segment and the `.com`
    completion; otherwise nothing.
  */
  predicate SuggestionsFit(email: string, s: seq<string>)
  {
    if '@' !in email then
      s == ["Add @ symbol"] + Completions(email, CommonDomains)
    else if '.' !in Split(email, '@')[1] then
      s == ["Domain '" + Split(email, '@')[1] + "' missing dot (.)", "Try: " + email + ".com"]
    else
      s == []
  }

  /** `EmailValidator.suggest_fix`: builds the list by appending, as `suggest_fix` does. */
  method SuggestFix(email: string) returns (suggestions: seq<string>)
    ensures SuggestionsFit(email, suggestions)
  {
    suggestions := [];
    if '@' !in email {
      suggestions := suggestions + ["Add @ symbol"];
      for i := 0 to |CommonDomains|
        invariant suggestions == ["Add @ symbol"] + Completions(email, CommonDomains[..i])
      {
        assert CommonDomains[..i + 1][..i] == CommonDomains[..i];
        suggestions := suggestions + ["Try: " + email + CommonDomains[i]];
      }
      assert CommonDomains[..|CommonDomains|] == CommonDomains;
    } else if '.' !in Split(email, '@')[1] {
      var domain := Split(email, '@')[1];
      suggestions := suggestions + ["Domain '" + domain + "' missing dot (.)"];
      suggestions := suggestions + ["Try: " + email + ".com"];
    }
  }

  /**
    The shape of the suggestions: four items for a missing `@` (the hint,
    then the three common domains in order), two for a domain without a dot
    (the second appending `.com`), none otherwise.
  */
  lemma SuggestionsShape(email: string, s: seq<string>)
    requires SuggestionsFit(email, s)
    ensures '@' !in email ==>
              && |s| == 4 && s[0] == "Add @ symbol"
              && s[1] == "Try: " + email + "@gmail.com" && s[2] == "Try: " + email + "@hotmail.com"
              && s[3] == "Try: " + email + "@outlook.com"
    ensures '@' in email && '.' !in Split(email, '@')[1] ==> |s| == 2 && s[1] == "Try: " + email + ".com"
    ensures '@' in email && '.' in Split(email, '@')[1] ==> s == []
  {
    if '@' !in email {
      CompletionsAt(email, CommonDomains, 0);
      CompletionsAt(email, CommonDomains, 1);
      CompletionsAt(email, CommonDomains, 2);
    }
  }

  /**
    A suggestion is only ever made for an address that fails the shape check:
    every address that matches has an `@` and a dot in its domain.
  */
  lemma MatchingGetsNoSuggestion(email: string)
    requires MatchesPattern(email)
    ensures SuggestionsFit(email, [])
  {
    MatchShape(email);
    SplitOnce(email, '@');
  }

  /** An address without `@` is offered the Gmail completion among others. */
  lemma SuggestionsForMissingAt(e: string, s: seq<string>)
    requires e == "noatsign" && SuggestionsFit(e, s)
    ensures "Try: noatsign@gmail.com" in s
  {
    assert '@' !in e;
    SuggestionsShape(e, s);
    assert s[1] == "Try: noatsign@gmail.com";
  }

  /** A user name, one `@` and a dotless domain get the hint naming the domain and its `.com` completion. */
  lemma DotlessSuggestions(u: string, d: string, t: seq<string>)
    requires '@' !in u && '@' !in d && '.' !in d
    requires SuggestionsFit(u + ['@'] + d, t)
    ensures t == ["Domain '" + d + "' missing dot (.)", "Try: " + u + ['@'] + d + ".com"]
  {
    var e := u + ['@'] + d;
    SplitAround(u, '@', d);
    assert e[|u|] == '@';
    assert Split(e, '@')[1] == d;
    assert "Try: " + e + ".com" == "Try: " + u + ['@'] + d + ".com";
  }

  /** An address whose domain has no dot gets the hint naming the domain and the `.com` completion. */
  lemma SuggestionsForMissingDot(e: string, t: seq<string>)
    requires e == "a@b" && SuggestionsFit(e, t)
    ensures t == ["Domain 'b' missing dot (.)", "Try: a@b.com"]
  {
    assert e == "a" + ['@'] + "b";
    DotlessSuggestions("a", "b", t);
    assert "Domain '" + "b" + "' missing dot (.)" == "Domain 'b' missing dot (.)";
    assert "Try: " + "a" + ['@'] + "b" + ".com" == "Try: a@b.com";
  }

  // ---------------------------------------------------------------------
  // _calculate_email_score
  // ---------------------------------------------------------------------

  function LengthBonus(n: nat): nat
  {
    if n >= 8 then 10 else if n >= 5 then 5 else 0
  }

  function DomainBonus(domain: string): nat
  {
    if Mentions(domain, Microsoft) then 20 else if Contains(domain, "gmail") then 15 else 0
  }

  /** `re.search(r'\d{4}', username)` succeeds: four digits in a row. */
  predicate HasDigitRun(username: string)
  {
    exists i | 0 <= i && i + 4 <= |username| :: DigitRunAt(username, i)
  }

  predicate DigitRunAt(username: string, i: int)
  {
    0 <= i && i + 4 <= |username| && AllDigits(username[i..i + 4])
  }

  /**
    The email quality score: 50, plus a bonus for a long user name, for a
    Microsoft or Gmail domain, for four digits in a row, for a leading letter
    and for the absence of `_` and `.`, capped at 100. The bonuses add up to
    at most 100, so only an address earning every bonus, with the Microsoft
    one, reaches 100.
  */
  function EmailScore(username: string, domain: string): (score: int)
    requires |username| >= 1
    ensures 50 <= score <= 100
    ensures score == 100 ==>
              && LengthBonus(|username|) == 10 && DomainBonus(domain) == 20 && HasDigitRun(username)
              && IsAsciiLetter(username[0]) && '_' !in username && '.' !in username
  {
    var raw := 50 + LengthBonus(|username|) + DomainBonus(domain)
               + (if HasDigitRun(username) then 10 else 0)
               + (if IsAsciiLetter(username[0]) then 5 else 0)
               + (if '_' !in username && '.' !in username then 5 else 0);
    if raw < 100 then raw else 100
  }

  /** `FastXboxChecker._calculate_email_score`, accumulating as `_calculate_email_score` does. */
  method CalculateEmailScore(username: string, domain: string) returns (score: int)
    requires |username| >= 1
    ensures score == EmailScore(username, domain)
  {
    score := 50;
    if |username| >= 8 {
      score := score + 10;
    } else if |username| >= 5 {
      score := score + 5;
    }
    if Contains(domain, "hotmail") || Contains(domain, "outlook") || Contains(domain, "live") {
      score := score + 20;
    } else if Contains(domain, "gmail") {
      score := score + 15;
    }
    if HasDigitRun(username) {
      score := score + 10;
    }
    if IsAsciiLetter(username[0]) {
      score := score + 5;
    }
    if '_' !in username && '.' !in username {
      score := score + 5;
    }
    score := if score < 100 then score else 100;
  }
}
