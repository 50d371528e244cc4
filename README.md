# Xbox account checker: the checking pipeline in Dafny

This project models the checking pipeline of `deepseek_python_20260222_b25229.py`, a Telegram bot that "checks" Xbox accounts. Given an email address, the pipeline:

- validates its shape and splits it into a user name and a lower-cased domain;
- classifies the domain by provider, suggests fixes for a malformed address, and scores the address from 50 to 100;
- derives a gamertag from the user name;
- synthesises a profile for the gamertag: a tier and a gamerscore drawn from the tier's range, an age, a reputation, followers and games;
- classifies the Game Pass entitlement for a gamertag and score;
- estimates achievements and play time from the score.

Four process-wide dictionaries memoise the pipeline:

- `EMAIL_CACHE`, keyed by domain;
- `GAMERTAG_CACHE`, keyed by clean name;
- `PROFILE_CACHE`, keyed by gamertag;
- `GAMEPASS_CACHE`, keyed by `"gamertag:score"`.

The modules follow the pipeline's parts:

- `Text`: ASCII character classes, `str.lower`, substring tests, `str.split`/`join` on one character, and `str(int)` with its inverse.
- `EmailRules`: the regular expression of `validate` as a predicate, `validate`, the domain classifier, `suggest_fix` and the email score.
- `Handles`: the gamertag derivation.
- `Profiles`: the tier, score and age ladders and the profile synthesis.
- `Gamepass`: the bracket ladders, the entitlement, and the cache key.
- `Estimators`: `get_achievements` and `calculate_playtime`.
- `Pipeline`: class `FastXboxChecker`. Its four caches are `map` fields, and its memoised lookups are methods that modify exactly their own cache.

How the untrustworthy parts are modelled:

- **Random draws** are parameters. Each has a precondition giving the range it is drawn from: inclusive at both ends for `random.randint` and an index into the list for `random.choice`, and [0, 1) for `random.random`. The lower end of the `completed` draw is relaxed to 0, as "## Left out" records under `Estimators.AchievementsFor`. When a range depends on an earlier draw or on the branch taken, the precondition is conditional in the same way.
- **Python's salted `hash`** is a function fixed when the checker is constructed. It stands for one process's salt. The model assumes nothing about it beyond `hash(g) % 1000` lying in 0..999.
- **Each cache** carries an invariant, `FastXboxChecker.Valid`: every stored value is one the uncached computation could have produced for its key, for some draws. Each lookup method proves three things:
  - a hit returns the stored value;
  - a miss computes the value and stores it;
  - no other entry of any cache changes.

What the proofs establish, beyond each operation's own branches:

- **The regular expression.** `[a-zA-Z0-9._%+-]+@[a-zA-Z0-9.-]+\.[a-zA-Z]{2,}$` under `re.match` is modelled exactly. This includes the quirk that `$` also matches before one final `"\n"`. A matching address therefore has exactly one `@` and a dot after it. That makes the `len(parts) != 2` branch of `validate` unreachable, and `suggest_fix` never suggests anything for a valid address.
- **The domain classifier** picks the first provider in the fixed order whose marker substrings occur in the domain.
- **In `suggest_fix`**, the index `email.split('@')[1]` never goes out of range.
- **The gamerscore ladder.** `randint(5, gamerscore // 100)` raises `ValueError` whenever the drawn score is below 500. That can only happen in the New tier, and the model returns it as `EmptyRange`. As a result, every profile that is ever synthesised or cached has `valid == True` and an age in years: the `"New account"` age is never produced.
- **Inclusive ranges.** `randint` is inclusive at both ends, so neighbouring tier ranges share their end scores, and only those scores belong to two tiers (`Profiles.ScoreDeterminesTier`).
- **The Game Pass ladders.**
  - Each bracket's thresholds partition the draws 1..100.
  - The top bracket gives Ultimate for 40 of the 100 draws, Game Pass for 30 and Live Gold for 30.
  - The lowest bracket gives the trial for 5 draws and never gives Ultimate.
- **The key `f"{gamertag}:{gamerscore}"`** is injective, even for gamertags containing colons, because `str(score)` never contains one.

## Model

| member | source | states |
|---|---|---|
| `Text.Lower` | deepseek_python_20260222_b25229.py:110 | `domain.lower()` keeps the length, lower-cases each letter, and leaves a string with no upper-case letter |
| `Text.LowerIdempotent` | deepseek_python_20260222_b25229.py:115 | lower-casing the already lower-cased domain again in `get_domain_info` changes nothing |
| `Text.Split` | deepseek_python_20260222_b25229.py:105 | `email.split('@')` has one more part than there are `@`, no part contains `@`, and the first part is the text before the first `@` |
| `Text.JoinSplit` | deepseek_python_20260222_b25229.py:105 | joining the parts with the separator gives back the original string |
| `Text.SplitOnce` | deepseek_python_20260222_b25229.py:105-109 | with exactly one `@`, the split is the pair of text before it and text after it |
| `Text.SplitAround` | deepseek_python_20260222_b25229.py:265 | two `@`-free strings joined by `@` split back into exactly those two |
| `Text.Contains` | deepseek_python_20260222_b25229.py:120-148 | `sub in s`: some position of `s` starts an occurrence of `sub` |
| `Text.IntToString` | deepseek_python_20260222_b25229.py:340 | `str(n)` is non-empty and contains no colon |
| `Text.ParseIntToString` | deepseek_python_20260222_b25229.py:340 | `str(n)` is a sign and digits that read back as `n` |
| `Text.IntToStringInjective` | deepseek_python_20260222_b25229.py:340 | different integers have different renderings |
| `EmailRules.MatchesPattern` | deepseek_python_20260222_b25229.py:101-102 | what `re.match` accepts: a full match of local-part characters, `@`, domain characters, a dot and two or more letters, or such a match followed by one final newline |
| `EmailRules.FullMatchShape` | deepseek_python_20260222_b25229.py:101-102 | an address the pattern matches in full has exactly one `@`, at position at least 1, only local-part characters before it and a dot after it |
| `EmailRules.AtShapeAppend` | deepseek_python_20260222_b25229.py:101-102 | appending a character other than `@` keeps those facts |
| `EmailRules.NewlineShape` | deepseek_python_20260222_b25229.py:101-102 | an address the pattern matches before a final newline has the same facts |
| `EmailRules.MatchShape` | deepseek_python_20260222_b25229.py:101-106 | every address `re.match` accepts has exactly one `@`, at position at least 1, only local-part characters before it and a dot after it, so the split has two parts |
| `EmailRules.Validate` | deepseek_python_20260222_b25229.py:99-110 | valid exactly when the pattern matches; not valid gives `(False, "", "")`; valid gives the non-empty text before the single `@` and the lower-cased rest |
| `EmailRules.ValidateSplit` | deepseek_python_20260222_b25229.py:99-110 | an address the pattern matches in full with its `@` at position `a` validates to the text before `a` and the lower-cased text after it |
| `EmailRules.ValidateSplitNewline` | deepseek_python_20260222_b25229.py:99-110 | the same for an address matched before a final newline, the newline staying in the domain |
| `EmailRules.ValidateParts` | deepseek_python_20260222_b25229.py:99-110 | a user name, `@` and a domain that match validate to that user name and the lower-cased domain |
| `EmailRules.ValidateNewlineParts` | deepseek_python_20260222_b25229.py:99-110 | the same with a final newline, which ends up in the domain |
| `EmailRules.ValidateAcceptsLower` | deepseek_python_20260222_b25229.py:99-110 | `user@gmail.com` validates to `("user", "gmail.com")` |
| `EmailRules.ValidateAcceptsMixed` | deepseek_python_20260222_b25229.py:99-110 | `User@GMAIL.COM` validates to `("User", "gmail.com")`: only the domain is lower-cased |
| `EmailRules.ValidateKeepsTrailingNewline` | deepseek_python_20260222_b25229.py:101-110 | `"a@b.co\n"` is valid, because `$` matches before a final newline, and the newline stays in the domain |
| `EmailRules.NoAtNoFullMatch` | deepseek_python_20260222_b25229.py:101-103 | a string without `@` never matches the pattern in full |
| `EmailRules.NoDotNoFullMatch` | deepseek_python_20260222_b25229.py:101-103 | a string without a dot never matches the pattern in full |
| `EmailRules.SplitHasDot` | deepseek_python_20260222_b25229.py:101 | the domain side of a match, after the `@`, holds a dot |
| `EmailRules.NoAtRejected` | deepseek_python_20260222_b25229.py:101-103 | every address without `@` is rejected with `(False, "", "")`, with or without a final newline |
| `EmailRules.NoDotRejected` | deepseek_python_20260222_b25229.py:101-103 | every address without a dot is rejected |
| `EmailRules.ValidateRejectsNoAt` | deepseek_python_20260222_b25229.py:101-103 | `noatsign` is rejected |
| `EmailRules.ValidateRejectsNoDot` | deepseek_python_20260222_b25229.py:101-103 | `a@b` is rejected |
| `EmailRules.ValidateRejectsShortTld` | deepseek_python_20260222_b25229.py:101-103 | `a@b.c` is rejected: the top-level part needs two letters |
| `EmailRules.Mentions` | deepseek_python_20260222_b25229.py:119-153 | the substring tests of each provider branch: gmail/google, hotmail/outlook/live, yahoo, proton, icloud/me.com/mac.com |
| `EmailRules.ProviderOf` | deepseek_python_20260222_b25229.py:120-161 | the provider is one whose markers occur in the domain, and no provider earlier in the order gmail/google, hotmail/outlook/live, yahoo, proton, icloud/me.com/mac.com matches; Other when none does |
| `EmailRules.InfoOf` | deepseek_python_20260222_b25229.py:120-160 | the provider, type, reliability and notes dictionary of each branch |
| `EmailRules.Classify` | deepseek_python_20260222_b25229.py:119-161 | the dictionary of the first provider whose markers occur in the domain |
| `EmailRules.InfoOfInjective` | deepseek_python_20260222_b25229.py:120-161 | the six information records are pairwise different |
| `EmailRules.ProviderGmail` | deepseek_python_20260222_b25229.py:119-125 | `gmail.com` is Google |
| `EmailRules.ProviderGoogleFirst` | deepseek_python_20260222_b25229.py:119-132 | `live.google.com` is Google: Google is tried before Microsoft |
| `EmailRules.ProviderOutlook` | deepseek_python_20260222_b25229.py:126-132 | `outlook.fr` is Microsoft: the markers are substrings, not whole domains |
| `EmailRules.ProviderLooseApple` | deepseek_python_20260222_b25229.py:147-153 | `acme.com` is Apple, through the loose `me.com` substring test |
| `EmailRules.MentionsNone` | deepseek_python_20260222_b25229.py:119-160 | a domain without any of the letters g, a, u, l, y, p, i, e falls through to Other |
| `EmailRules.ProviderOther` | deepseek_python_20260222_b25229.py:154-160 | `zoho.com` is Other |
| `EmailRules.SuggestionsFit` | deepseek_python_20260222_b25229.py:167-182 | the list `suggest_fix` builds: the `@` hint and three completions when `@` is missing; the hint naming the segment after the first `@` and the `.com` completion when that segment has no dot; otherwise empty |
| `EmailRules.SuggestFix` | deepseek_python_20260222_b25229.py:167-182 | the appended list is the hint and the three completions when `@` is missing, the missing-dot hint and the `.com` completion when the segment after the first `@` has no dot, and empty otherwise |
| `EmailRules.Completions` | deepseek_python_20260222_b25229.py:174-175 | the `"Try: " + email + d` entries the loop appends, one per domain in order |
| `EmailRules.CompletionsAt` | deepseek_python_20260222_b25229.py:173-175 | the `j`-th completion is `"Try: " + email + domains[j]` |
| `EmailRules.SuggestionsShape` | deepseek_python_20260222_b25229.py:167-182 | exactly 4 items, `@gmail.com`, `@hotmail.com`, `@outlook.com` in order; or exactly 2 ending with `email + ".com"`; or none |
| `EmailRules.MatchingGetsNoSuggestion` | deepseek_python_20260222_b25229.py:167-182 | every address that passes the shape check gets no suggestion |
| `EmailRules.DotlessSuggestions` | deepseek_python_20260222_b25229.py:176-180 | for a user name, one `@` and a dotless domain, the suggestions are exactly the hint naming the domain and the address with `.com` appended |
| `EmailRules.SuggestionsForMissingAt` | deepseek_python_20260222_b25229.py:170-174 | `noatsign` gets `Try: noatsign@gmail.com` |
| `EmailRules.SuggestionsForMissingDot` | deepseek_python_20260222_b25229.py:176-180 | `a@b` gets exactly the missing-dot hint for `b` and `Try: a@b.com` |
| `EmailRules.LengthBonus` | deepseek_python_20260222_b25229.py:244-247 | 10 points for a user name of at least 8 characters, 5 for at least 5, else none |
| `EmailRules.DomainBonus` | deepseek_python_20260222_b25229.py:249-252 | 20 points for a hotmail, outlook or live domain, else 15 for gmail, else none |
| `EmailRules.HasDigitRun` | deepseek_python_20260222_b25229.py:254 | `re.search(r"\d{4}", username)`: four ASCII digits in a row somewhere in the name |
| `EmailRules.EmailScore` | deepseek_python_20260222_b25229.py:240-260 | for a non-empty user name the score is in [50, 100]; reaching 100 needs every bonus: a name of at least 8 characters, a Microsoft domain (a Gmail address tops out at 95), four digits in a row, a leading letter and no `_` or `.` |
| `EmailRules.CalculateEmailScore` | deepseek_python_20260222_b25229.py:240-261 | the step-by-step accumulation equals the capped sum of the bonuses |
| `Handles.Clean` | deepseek_python_20260222_b25229.py:266 | the cleaned name is all ASCII letters and digits and no longer than the input |
| `Handles.CleanAppend` | deepseek_python_20260222_b25229.py:266 | cleaning distributes over concatenation |
| `Handles.CleanKeepsAlnum` | deepseek_python_20260222_b25229.py:266 | a name of letters and digits is left as it is |
| `Handles.CleanOneChar` | deepseek_python_20260222_b25229.py:266 | a single character is kept exactly when it is an ASCII letter or digit and dropped otherwise; with `Handles.CleanAppend` this fixes `Clean` on every string |
| `Handles.CleanIdempotent` | deepseek_python_20260222_b25229.py:266 | cleaning twice is cleaning once |
| `Handles.CleanName` | deepseek_python_20260222_b25229.py:265-266 | the cache key: the cleaned text before the first `@` |
| `Handles.Base` | deepseek_python_20260222_b25229.py:271-276 | a name shorter than 3 gets the chosen short suffix, one starting with a digit gets an `x` prefix, any other is kept |
| `Handles.Derive` | deepseek_python_20260222_b25229.py:271-280 | the base tag, with the chosen extra suffix when it is shorter than 12 and the draw exceeds 0.7 |
| `Handles.DeriveShape` | deepseek_python_20260222_b25229.py:271-280 | a short name is followed by its chosen short suffix; a leading digit gets an `x` prefix; other names are kept; the extra suffix is added exactly when the tag is under 12 characters and the draw exceeds 0.7; the tag is non-empty, and alphanumeric for a clean name |
| `Handles.HandleShape` | deepseek_python_20260222_b25229.py:271-280 | every tag some draws give for a clean name has that shape |
| `Handles.DeriveExamples` | deepseek_python_20260222_b25229.py:271-280 | `ab` can become `abgamer123`, `7up` becomes `x7up`, a 12-character name never gets the extra suffix |
| `Handles.CleanExample` | deepseek_python_20260222_b25229.py:266 | `j.9` cleans to `j9` |
| `Handles.CleanNameExample` | deepseek_python_20260222_b25229.py:265-266 | the cache key of `j.9@mail.com` is `j9` |
| `Profiles.TierName` | deepseek_python_20260222_b25229.py:294-309 | the tier string of each tier |
| `Profiles.TierNameInjective` | deepseek_python_20260222_b25229.py:291-309 | the six tier strings are pairwise different, so the `Tier` value a profile holds stands for exactly one of the strings the program stores |
| `Profiles.TierOf` | deepseek_python_20260222_b25229.py:291-309 | the tier of a bucket: above 900, 750, 550, 300 and 100, and New for the rest |
| `Profiles.ScoreRange` | deepseek_python_20260222_b25229.py:291-309 | the inclusive gamerscore range of each tier |
| `Profiles.AgeBandOf` | deepseek_python_20260222_b25229.py:311-322 | the inclusive range of years for a score above 100000, 50000, 20000, 5000 and 0, and no years otherwise |
| `Profiles.YearsText` | deepseek_python_20260222_b25229.py:312-320 | the age text: the number followed by `" years"` |
| `Profiles.Synthesize` | deepseek_python_20260222_b25229.py:290-333 | fails with the empty range `(5, score // 100)` exactly when the score is below 500, which happens only in the New tier; otherwise the profile has the gamertag, the bucket's tier and a score in that tier's range |
| `Profiles.SynthesisShape` | deepseek_python_20260222_b25229.py:311-333 | the age follows the score ladder; `valid` holds iff the score is positive; the reputation is one of three; followers are in [0, score // 10]; games are in [5, score // 100] |
| `Profiles.SynthesisedIsValid` | deepseek_python_20260222_b25229.py:319-332 | every profile some draws produce is valid, has a score of at least 500 and an age in years, never `"New account"` |
| `Profiles.FailureIsNewTier` | deepseek_python_20260222_b25229.py:292-309 | the New tier is the buckets up to 100, and every other tier's scores start at 500 or more |
| `Profiles.TierLadderMonotone` | deepseek_python_20260222_b25229.py:292-309 | a higher bucket never gives a lower tier or a lower score range |
| `Profiles.ScoreDeterminesTier` | deepseek_python_20260222_b25229.py:292-309 | two tiers share a score only at a boundary of neighbouring ranges |
| `Profiles.RangesCover` | deepseek_python_20260222_b25229.py:292-322 | every score in 0..150000 lies in some tier's range; a score has an age in years iff it is positive |
| `Profiles.VeteranExample` | deepseek_python_20260222_b25229.py:295-332 | a Veteran bucket is 751..900, and a Veteran at 60000 is 5 to 8 years old with at most 600 games |
| `Gamepass.BracketOf` | deepseek_python_20260222_b25229.py:345-416 | the score brackets: above 50000, above 20000, above 5000, and the rest |
| `Gamepass.DaysRange` | deepseek_python_20260222_b25229.py:352-407 | the inclusive ranges the days until expiry are drawn from, per bracket and outcome: 15-45 and 10-30, 10-30 and 5-20, 5-15 and 1-10 |
| `Gamepass.Ladder` | deepseek_python_20260222_b25229.py:345-430 | each bracket's percentile thresholds and outcomes, as a table |
| `Gamepass.Lookup` | deepseek_python_20260222_b25229.py:345-430 | the outcome of the first rung whose threshold the draw does not exceed, the last rung catching the rest |
| `Gamepass.GrantOf` | deepseek_python_20260222_b25229.py:345-430 | the outcome the score's bracket ladder gives the draw |
| `Gamepass.Entitlement` | deepseek_python_20260222_b25229.py:345-430 | the dictionary each outcome produces, with the expiry in days for a pass |
| `Gamepass.Status` | deepseek_python_20260222_b25229.py:345-430 | ultimate implies a pass, and exactly the results without a pass have no expiry; the lowest bracket never gives ultimate and gives the 14-day trial exactly when the draw is at most 5 |
| `Gamepass.StatusFollowsLadder` | deepseek_python_20260222_b25229.py:345-430 | the branches equal the table: each bracket's threshold ladder picks the outcome |
| `Gamepass.LookupTwo` | deepseek_python_20260222_b25229.py:417-430 | a two-rung ladder gives the first outcome up to its threshold and the second above it |
| `Gamepass.LookupThree` | deepseek_python_20260222_b25229.py:347-367 | a three-rung ladder gives its outcomes by the two nested thresholds |
| `Gamepass.LaddersRise` | deepseek_python_20260222_b25229.py:345-430 | every bracket's thresholds rise strictly and end at 100 |
| `Gamepass.LookupCovers` | deepseek_python_20260222_b25229.py:345-430 | on a rising ladder each draw in 1..100 falls on exactly one rung, whose outcome the lookup gives |
| `Gamepass.RisingOrdered` | deepseek_python_20260222_b25229.py:345-430 | thresholds of a rising ladder are ordered by position |
| `Gamepass.SpanSize` | deepseek_python_20260222_b25229.py:346 | the draws `lo..hi` number `hi - lo + 1` |
| `Gamepass.TopShares` | deepseek_python_20260222_b25229.py:345-367 | above 50000, 40 of the 100 draws give Ultimate, 30 Game Pass and 30 Live Gold |
| `Gamepass.LowShares` | deepseek_python_20260222_b25229.py:416-430 | at 5000 or less, 5 draws give the trial and 95 give nothing |
| `Gamepass.ReachableShape` | deepseek_python_20260222_b25229.py:345-430 | any entitlement some draws give is well formed; a pass always expires 1 to 45 days from now |
| `Gamepass.PassKey` | deepseek_python_20260222_b25229.py:340 | the cache key: the gamertag, a colon and the score in decimal |
| `Gamepass.PassKeyInjective` | deepseek_python_20260222_b25229.py:340 | two `gamertag:score` keys are equal only for equal gamertags and scores |
| `Estimators.TotalFor` | deepseek_python_20260222_b25229.py:437 | one achievement per 12 points for a positive score, otherwise the 0..50 draw |
| `Estimators.AchievementsFor` | deepseek_python_20260222_b25229.py:435-446 | 0 ≤ rare ≤ completed ≤ total with 5·rare ≤ completed; a positive score gives `score // 12` achievements; the percentage is in [0, 100], is 0 with no achievements, and is otherwise completed/total·100 |
| `Estimators.PercentageBounds` | deepseek_python_20260222_b25229.py:445 | completed/total·100 lies in [0, 100] |
| `Estimators.AllCompleted` | deepseek_python_20260222_b25229.py:435-446 | completing every achievement gives 100 percent |
| `Estimators.PlaytimeFor` | deepseek_python_20260222_b25229.py:448-464 | a score of 0 gives all zeros; otherwise hours ≥ 0 within the jitter of `score // 30`, games = max(1, hours // 20) ≥ 1, days·24 = avg·30 = hours |
| `Estimators.PlaytimeMonotone` | deepseek_python_20260222_b25229.py:448-464 | with the same jitter a higher score never gives fewer hours or games; games is one per 20 hours, never fewer than one |
| `Pipeline.FastXboxChecker.Bucket` | deepseek_python_20260222_b25229.py:290 | the bucket is in 0..999 |
| `Pipeline.FastXboxChecker.constructor` | deepseek_python_20260222_b25229.py:56-59 | the four caches start empty, and the cache invariant holds |
| `Pipeline.FastXboxChecker.GetDomainInfo` | deepseek_python_20260222_b25229.py:113-164 | the result is the classification of the lower-cased domain; a hit returns the stored value; afterwards the entry for the lower-cased domain holds the result and nothing else changed |
| `Pipeline.FastXboxChecker.CheckEmail` | deepseek_python_20260222_b25229.py:214-238 | rejected iff the shape check fails, with empty parts and `suggest_fix` output and no cache change; otherwise the parts, the domain's information and the score, with the domain cached |
| `Pipeline.FastXboxChecker.ExtractGamertag` | deepseek_python_20260222_b25229.py:263-283 | a hit on the clean name returns the stored tag; a miss derives it; afterwards the clean name's entry holds the result |
| `Pipeline.FastXboxChecker.GetProfileInfo` | deepseek_python_20260222_b25229.py:285-336 | a hit returns the stored profile; a miss synthesises one for the bucket and stores it, or returns the empty-range error and stores nothing |
| `Pipeline.FastXboxChecker.CheckGamepassStatus` | deepseek_python_20260222_b25229.py:338-433 | keyed by `gamertag:score`: a hit returns the stored value, a miss classifies and stores it; the result is always one some draws give at that score |
| `Pipeline.FastXboxChecker.CachedProfilesValid` | deepseek_python_20260222_b25229.py:287-288 | every profile a cache hit returns is valid, in its bucket's tier, and never `"New account"` |
| `Pipeline.FastXboxChecker.CachedPassesWellFormed` | deepseek_python_20260222_b25229.py:342-343 | every entitlement a cache hit returns is well formed, and never ultimate for a low score |
| `Pipeline.FastXboxChecker.CachedTagsShaped` | deepseek_python_20260222_b25229.py:265-269 | every key of the gamertag cache is a clean name, and its tag is non-empty and alphanumeric, starting with the clean name when that name is at least 3 long and starts with a letter |
| `Pipeline.RepeatedLookupsAgree` | deepseek_python_20260222_b25229.py:56-59 | whatever the draws of either call, asking twice gives the same domain information, the same gamertag (also for two addresses with the same clean name), the same entitlement, and the same profile once one was synthesised |

## Left out

- The Telegram bot (`XboxBot` and its handlers), `SystemMonitor` (psutil metrics and the socket probe), the `aiohttp` session, `get_headers` and the thread pool are left out. They are messaging, operating-system and network plumbing.
- The checker methods are `async`, but none of them awaits anything. They are modelled as ordinary sequential methods, and interleaving between coroutines is not modelled.
- The caches are module-level globals shared by every `FastXboxChecker` in a process. Here they are fields of one checker object, so the model does not capture two checker instances sharing them.
- Python returns the cached dictionary object itself, so a caller that mutated it would change the cache. The model uses immutable values and does not capture that aliasing.
- The random generator's state and the order in which draws are consumed are not modelled. Each draw is a parameter; for instance, `random.random()` at line 278 is only evaluated when the tag is short.
- `hash` is left uninterpreted. Nothing is claimed about its values across processes.
- Expiry dates are modelled as `DaysFromNow(days)` or `NotApplicable`, not as calendar dates produced by `datetime.now() + timedelta(...)`. The clock is left out.
- `Estimators.AchievementsFor`: the percentage is an exact ratio. Python rounds it with `round(..., 1)`, which the model does not capture.
- `Estimators.PlaytimeFor`: `days` and `avg` are exact ratios of the hours. Python rounds them with `round(..., 1)`, which the model does not capture.
- `Estimators.AchievementsFor`: the lower end of the completed draw, `int(total * 0.3)`, is computed in floating point and is not modelled. The completed draw is only required to be in [0, total], so the contract covers a superset of the draws `get_achievements` makes.
- `Text.Lower`: lower-cases ASCII letters only, while Python's `str.lower` also lower-cases other Unicode letters. This matters only when `get_domain_info` is called directly with a non-ASCII domain; a validated domain is ASCII apart from a possible final newline.
- `EmailRules.EmailScore`: `isalpha` and `\d` are modelled as ASCII tests. Python's versions also accept other Unicode letters and digits. The two agree on every user name `Validate` accepts, because those consist only of `[A-Za-z0-9._%+-]` characters.
