# A model of resterm's stateful and exact cores

resterm is a client for HTTP and related protocols. This project models the parts of it that hold
state or compute something exactly, and proves what those parts are for.

- `AuthConfig`, `CacheKeys`, `AuthManager`, `SingleFlight`: credentials from a command, cached per key
  and fetched once however many callers ask. `AuthManager` is the manager as a class, one method per
  locked section; `SingleFlight` lets those sections of any number of callers interleave.
- `OAuthFlights` (with the keys of `CacheKeys`): the OAuth token cache, its two keys per lookup, and its
  flights.
- `DirectiveLexer`, `DirectiveLaws`, `DirectiveWord`, `DirectiveOptions`: the lexer of directive lines,
  how lexing composes, and its inverses, quoting and writing options. `DirectiveGroups` and
  `DirectiveQuotes` tell bracketed, quoted and escaped text by grammars of their own.
- `MockNumber`, `ByteSize`: exact comparison of decimal literals under a capped exponent, and exact
  scaling of sizes.
- `Curl`: the quote machine of pasted commands in its two modes, and the tokenizer.
- `MockJournal`, `MockJson` (over the values of `Json`), `Reload`: the mock server's request journal and body tap, its JSON matching
  and rule compiler, and its hot reload.
- `JsonPath`: a validator and a splitter of paths, written separately.
- `Bindings`: the key-binding table.
- `K8sRing`, `K8sSession`: diagnostics of a port-forward session.
- `Text`: the string helpers these share, with their laws, and `Wrappers`: option and result types.

Code that changes state is a class or a method with loops, proved against a specification function
(`AdvanceOf`, `Stream`, `Evict`, `Next`, ...); what the program promises is proved about those functions.
Concurrent code is a state machine whose events are the critical sections, and its theorems hold of
every finite sequence of events. Clocks, fetches, token servers, body readers, file contents and the
order in which a map is visited are arbitrary.

## Where a promise has a condition

- An OAuth lookup takes the first key that is present, valid or not. An expired token under the key
  hides a valid one under the fallback, and the token server is asked
  (`OAuthFlights.NetworkDespiteAValidToken` has the exact condition).
- The reload fingerprint reads no overlay and an empty overlay alike, so swapping one for the other at
  the same path can leave an outdated handler in place (`Reload.OverlaysAreSafeUnlessMixed`). No caller
  in the repository does so: the command line always passes no overlay (cmd/resterm/mock.go:213 and
  284), and the user interface always passes one, be it empty (internal/ui/model_mock.go:218 and
  internal/ui/model_mock_reload.go:59).
- Attaching a second collector to a live session forgets the first one
  (`K8sSession.LeakedExactly`). The one caller in the repository attaches once.
- The newest-first scan trusts time stamps to be in order (`K8sRing.ScanFindsNewest`).
- Two numbers whose exponents are capped on the same side compare equal, and for literals of more than
  3*10^18 characters the cap can mislead (`MockNumber.ComparisonIsExact`,
  `MockNumber.LongerLiteralsCanMislead`).
- Fields compose across white space exactly if the first part ends quiet, save for a lone quote with
  nothing behind it (`DirectiveLaws.FieldsComposeExactly`).
- A fetch in the air during Restore comes back with the seed it took off with. What is restored keeps
  its configuration exactly if no such fetch carries another seed for its key
  (`SingleFlight.RestoredSeedsStay`; `SingleFlight.RestoredSeedIsLost` is a schedule where it does not).
- Normalised OAuth parameters depend on map order if two raw names normalise alike with different values
  (`CacheKeys.NormalizedExtraUnique`).

## Model

| member | source | states |
|---|---|---|
| SingleFlight.RunKeepsInv | internal/authcmd/manager.go:306-373 | Every step of every schedule of callers, fetches, cancellations and restores keeps the flight table sound: a flight in it has an owner still at work, its key is the owner's, and callers agree with the flights they own or wait for |
| SingleFlight.AtMostOneFetch | internal/authcmd/manager.go:306-373 | In every schedule, at most one caller per non-empty key is between starting a fetch and leaving the flight table |
| SingleFlight.NoFetchWhileUsable | internal/authcmd/manager.go:306-336 | A caller that plans starts a fetch if and only if no flight of its key is in the table and the cache holds no record that is its seed's and valid at its clock |
| SingleFlight.NobodyIsStranded | internal/authcmd/manager.go:338-373 | A waiter's flight is either published or has an owner at work, and the table is empty when nobody is at work |
| SingleFlight.WaiterCanFinish | internal/authcmd/manager.go:338-373 | From every reachable state a waiter can be served within three more steps, with what its own flight publishes |
| SingleFlight.PublishedFlightsAreFrozen | internal/authcmd/manager.go:350-373 | What a flight has published, its key and its seed never change afterwards |
| SingleFlight.CallersGetTheirFlight | internal/authcmd/manager.go:338-373 | Owner and waiters end with exactly the credential or error of the flight they joined, rendered for their own configuration; only a waiter may be cancelled instead |
| SingleFlight.SeedsNeverChange | internal/authcmd/manager.go:242-246 | Without Restore, a cached key keeps its stored configuration for the rest of the run |
| SingleFlight.SeedsStayExactly | internal/authcmd/manager.go:242-246 | From any sound state, cached configurations never change on any continuation without a Restore exactly if no fetch in the air carries a seed other than the one cached under its key |
| SingleFlight.RestoredSeedsStay | internal/authcmd/manager.go:180-207 | At any moment of any schedule: what is restored then never changes, on any continuation without another Restore, exactly if every fetch in the air for a restored key, running or about to store, carries the restored seed |
| SingleFlight.RestoredSeedIsLost | internal/authcmd/manager.go:350-373 | A schedule from the start on which a running command comes back after a Restore and puts its own seed over the restored one |
| SingleFlight.FlightMatesShareSeed | internal/authcmd/manager.go:306-336 | All callers tied to one flight have the same key and the same seed, also across a Restore |
| SingleFlight.ServedCredentialsFit | internal/authcmd/manager.go:234-373 | Whatever a caller with a cache key is served was obtained under that key by a command with the caller's own seed, or restored as such, in every schedule; this rests on the second check after the unlocked preparation |
| SingleFlight.SnapshotRoundTrip | internal/authcmd/manager.go:146-207 | At any moment of any schedule, restoring the snapshot just taken gives back the same cache |
| AuthManager.Manager.Prepare | internal/authcmd/manager.go:258-282 | Normalises, inherits from the cached record of the key and validates, or reports the field that conflicts |
| AuthManager.PrepareIsNormal | internal/authcmd/manager.go:258-282 | What is prepared is valid, normalised and agrees with the record that was seen |
| AuthManager.Manager.CachedPrepared | internal/authcmd/manager.go:284-304 | The probe answers from a valid record of the same seed, reports a conflict, and otherwise nothing; it changes no state |
| AuthManager.Manager.PlanResolve | internal/authcmd/manager.go:306-336 | Takes the one decision of the locked section and enters a new flight in the table exactly when it is to start one |
| AuthManager.DecideStartsOnlyWhenNeeded | internal/authcmd/manager.go:306-336 | The decision: start iff no flight and no usable record; hit, join and refuse each exactly when the seeds say so |
| AuthManager.HitsAreExact | internal/authcmd/manager.go:224-240 | A record of the caller's own seed is handed out iff now is before its own expiry or, if it has none, its time to live lasts or cannot be told; the result says that moment; otherwise, with no flight in the air, a fetch starts with the configuration of the record |
| AuthManager.PreparedIsRunnable | internal/authcmd/parse.go:103-145 | What is prepared has a command that is no shell, a known format, no negative times, a cache key if it has a time to live, and a token path if its output is JSON |
| AuthManager.FollowUpsInherit | internal/authcmd/manager.go:258-282 | Under a cached key a request that agrees with the record is prepared with what the record says wherever it is silent; without a record it is prepared as it is, or refused if invalid |
| AuthManager.Manager.ResolveByFetch | internal/authcmd/manager.go:350-373 | Stores a fetched credential under the key with the seed of the plan, publishes the outcome to the flight and removes exactly that flight |
| AuthManager.Manager.WaitResolve | internal/authcmd/manager.go:338-348 | A waiter returns the published outcome rendered for its own configuration, or that it was cancelled |
| AuthManager.Manager.Snapshot | internal/authcmd/manager.go:146-178 | The records that hold a credential, by ascending key |
| AuthManager.Manager.Restore | internal/authcmd/manager.go:180-207 | Replaces the cache by the usable entries, later ones winning |
| AuthManager.SnapshotRestores | internal/authcmd/manager.go:146-207 | Saving and restoring loses nothing but records without a credential |
| AuthManager.RestoreTakesEntries | internal/authcmd/manager.go:180-207 | Every restored record is a saved entry, well kept, with a credential |
| AuthConfig.SameSeedIsEquivalence | internal/authcmd/config.go:178-199 | Having no differing seed field is an equivalence that ignores the timeout and reads a missing format as its default |
| AuthConfig.InheritedSeedAgrees | internal/authcmd/config.go:96-101 | After inheriting, the seeds are equal exactly if every field that was given repeats the base; inheriting twice changes nothing more |
| AuthConfig.NormalizeIdempotent | internal/authcmd/config.go:69-86 | Normalising twice is normalising once |
| AuthConfig.NormalizeOnlyTrims | internal/authcmd/config.go:69-86 | White space around any field does not matter, known formats are told in any case, and everything else stays |
| AuthConfig.ShellsAreShells | internal/authcmd/parse.go:168-173 | The seven shells are refused by name, with a directory in front, in capitals, and as program files |
| AuthConfig.TimeoutForIsTighter | internal/authcmd/config.go:137-142 | The timeout in force is the smaller of the positive ones |
| AuthConfig.RenderTellsTheTruth | internal/authcmd/render.go:8-46 | The expiry handed out is the one validity goes by, and the header value is the token behind its kind |
| AuthConfig.RenderedFields | internal/authcmd/render.go:8-46 | Header, value, kind and expiry of a result, each from the fields of configuration and credential |
| AuthConfig.ValidityEndsOnce | internal/authcmd/render.go:18-21 | A credential that is valid later was valid before |
| CacheKeys.EncodeInjective | internal/authcmd/cache.go:28-33 | Length-prefixed keys are uniquely decodable: equal keys iff equal part lists |
| CacheKeys.ScopeInjective | internal/authcmd/cache.go:10-15 | Scopes are equal iff environment and workspace are |
| CacheKeys.CacheEntryKeyInjective | internal/authcmd/cache.go:17-26 | Two commands share an entry iff they name the same cache key in the same environment; no key, no entry |
| CacheKeys.CacheEntryKeyTrimmed | internal/authcmd/cache.go:17-26 | Keys survive the trimming of Restore |
| CacheKeys.NormalizeExtras | internal/oauth/config.go:73-90 | Whatever the order of the map: every kept parameter is present under its normalised name, and nothing else is |
| CacheKeys.NormalizedExtraUnique | internal/oauth/config.go:73-90 | The result is determined by the input exactly if names that coincide after normalisation carry the same value |
| CacheKeys.ExtraNamesFold | internal/oauth/config.go:73-90 | Case, outer white space, and dashes against underscores do not matter in names of parameters |
| CacheKeys.NormalizedIsNormal | internal/oauth/config.go:18-46 | Normalised configurations are trimmed in every field that goes into a key |
| CacheKeys.OAuthKeyInjective | internal/oauth/manager.go:423-466 | Keys are equal iff the configurations have the same identity: an explicit key never meets a derived one, and different extra parameters never meet; no key is empty |
| CacheKeys.DerivedKeysTellApart | internal/oauth/manager.go:429-453 | Derived keys are equal iff environment, the twelve identifying fields and the extra parameters are; secrets and what only one request needs do not count |
| OAuthFlights.ResolvedDefaults | internal/oauth/config.go:48-57 | A grant or header that is not given is client_credentials or Authorization; nothing else changes |
| OAuthFlights.LookupKeysOfResolved | internal/oauth/manager.go:653-667 | Key and fallback are functions of the resolved configuration; there is a fallback exactly for derived keys of the default grant, it differs from the key, and the key is not empty |
| OAuthFlights.TokenCache.CachedToken | internal/oauth/manager.go:669-682 | Finds the token of the first key that is present |
| OAuthFlights.TokenCache.PromoteCacheKey | internal/oauth/manager.go:684-703 | The cache after promotion, in every case |
| OAuthFlights.TokenCache.ObtainToken | internal/oauth/manager.go:254-296 | The whole of obtaining a token over the cache (look up, promote, refresh or request, store, drop) is the steps of a flight, one after the other |
| OAuthFlights.ObtainedIsFoundAgain | internal/oauth/manager.go:254-296 | With nobody else at the cache: a token handed out is the one later lookups find, under the key; nothing stays under the fallback unless the key itself held a usable token; other keys and, on failure, the whole cache are left alone; and when the server is asked, for a refresh or for a new token |
| OAuthFlights.CachedTokensLast | internal/oauth/manager.go:782-790 | A cached token is handed out without the server iff it is not empty and does not expire or has more than thirty seconds left; once refused, it is refused at every later time |
| OAuthFlights.ServerAnswers | internal/oauth/manager.go:267-296 | For a token that does not last, a refresh is tried iff there is a refresh token, with that token, and then a new one is asked for |
| OAuthFlights.PromotionKeepsTheToken | internal/oauth/manager.go:684-703 | Promoting what a lookup found keeps what it finds, moves it to the key, leaves other keys alone, is idempotent, and never replaces a token another flight stored in the meantime |
| OAuthFlights.UsableUnlessHidden | internal/oauth/manager.go:669-682 | A lookup yields a valid token iff one is under either key and none that is invalid is under the first |
| OAuthFlights.StepKeepsInv | internal/oauth/manager.go:108-156 | Every step keeps the flight table sound |
| OAuthFlights.OneFlightPerKey | internal/oauth/manager.go:108-156 | On every run, two callers with flights in the table have different keys |
| OAuthFlights.WaitersGetTheirFlight | internal/oauth/manager.go:126-139 | A waiter gets the token or error of the flight it joined, one under its key or fallback, or is cancelled; published outcomes never change |
| OAuthFlights.NetworkFollowsAVainLook | internal/oauth/manager.go:254-296 | On every run, a flight on its way to the token server looked again after it had entered the table and found no token to use |
| OAuthFlights.NetworkDespiteAValidToken | internal/oauth/manager.go:262-296 | At every second look of every run: a flight goes on to the network iff it found no usable token, and the promise that it does so only if neither key holds a valid one is kept exactly if an invalid token under the key does not hide a valid one under the fallback |
| OAuthFlights.BoundReachesNetwork | internal/oauth/manager.go:267-296 | A flight that found nothing reaches the token server with its next step, whatever comes into the cache in between |
| OAuthFlights.ExpiredTokenHidesAGoodOne | internal/oauth/manager.go:262-296 | Such a cache, and the run on which the token server is asked although a good token is cached |
| DirectiveLexer.Lexer.Next | internal/directive/lexer.go:67-119 | Each call hands out the next token of the input, with its position, and moves past it; at the end nothing is pending |
| DirectiveLexer.Lexer.Take | internal/directive/lexer.go:71-112 | One character changes token, quote, escape, brackets and name state as the specification of a step says |
| DirectiveLexer.Lexer.Group | internal/directive/lexer.go:168-187 | Brackets and the JSON strings inside them |
| DirectiveLexer.Fields | internal/directive/lexer.go:12-17 | All field values, without escapes |
| DirectiveLexer.FieldsEscaped | internal/directive/lexer.go:19-24 | All field values, with escapes |
| DirectiveLaws.StreamSplits | internal/directive/lexer.go:59-119 | Lexing s then t is lexing s and going on from the state it left |
| DirectiveLaws.FieldsCompose | internal/directive/lexer.go:67-119 | If s ends outside every quote, bracket and escape, white space keeps the fields of s and t apart, for all t |
| DirectiveLaws.FieldsComposeExactly | internal/directive/lexer.go:67-119 | And only then, unless s ends in a quote with nothing read inside |
| DirectiveLaws.LoneQuoteIsUndecided | internal/directive/lexer.go:67-119 | Behind such a lone quote either can happen: one tail each way |
| DirectiveLaws.ValuesAlike | internal/directive/lexer.go:67-119 | Values do not depend on positions |
| DirectiveLaws.SpansAreLocal | internal/directive/lexer.go:67-119 | Spans are in bounds, ordered and disjoint, and lexing the text of one gives exactly its field |
| DirectiveGroups.GroupIsOneField | internal/directive/lexer.go:140-208 | key=[...], key={...} and key=name(...) are one field each and end quiet, for all text of nested matching brackets, JSON strings with escapes and other characters; white space behind starts the next field; in both lexing modes |
| DirectiveGroups.CutGroupMissesItsBracket | internal/directive/option.go:58-74 | Cut before its last character, such a group misses exactly the bracket that matches its first |
| DirectiveGroups.CutGroupMissesTheInnerBracket | internal/directive/option.go:58-74 | Cut within an inner group, the inner bracket is the one that is missed |
| DirectiveGroups.BracketsElsewhereArePlain | internal/directive/lexer.go:140-148 | Brackets open nothing without a key, inside a value that has begun (square, curly) or right behind the equals sign (round) |
| DirectiveGroups.RoundNeedsAName | internal/directive/lexer.go:140-160 | Nor does a round bracket behind a value that is no name |
| DirectiveQuotes.QuotedWordIsItsValue | internal/directive/lexer.go:71-119 | A word in either kind of quotes is one field, a backslash counting only before that quote or a backslash; without its last quote, that quote is missed |
| DirectiveQuotes.BareWordIsItsValue | internal/directive/lexer.go:71-119 | A bare word is one field, with escaped characters, spaces and quotes included, as ordinary ones |
| DirectiveQuotes.RawWordIsItself | internal/directive/lexer.go:12-17 | Where escapes are off, everything between quotes is itself |
| DirectiveWord.Quote | internal/directive/word.go:19-37 | The quoted form of a word: bare where it may be, otherwise in quotes with escapes |
| DirectiveWord.CutQuoted | internal/directive/word.go:64-85 | The content of a quoted name and what follows it |
| DirectiveWord.CutName | internal/directive/word.go:46-62 | The name and the tail of an input |
| DirectiveWord.OptionEq | internal/directive/option.go:432-445 | The equals sign of an option, or -1 exactly if the word is no option |
| DirectiveWord.CutNameInvertsQuote | internal/directive/word.go:19-85 | CutName(Quote(v) + tail) = (v, tail) for every non-empty v, exactly if v is quoted or the tail is empty or starts with white space |
| DirectiveQuotes.QuotedNamesAreCut | internal/directive/word.go:46-85 | CutName on a name in either kind of quotes, with escapes, and any tail |
| DirectiveQuotes.OptionsAreKeyAndValue | internal/directive/option.go:432-449 | An option is a key of letters, digits, _, - and ., one equals sign, and no second one right behind it |
| DirectiveWord.WordIsOneField | internal/directive/word.go:19-44 | A quoted word is one field and leaves the lexer quiet |
| DirectiveWord.FieldsInvertQuote | internal/directive/lexer.go:19-24 | Lexing any non-empty words, quoted and joined with white space, gives the words back |
| DirectiveOptions.OptionsOpen | internal/directive/option.go:58-74 | The delimiter that is missing at the end of a line |
| DirectiveOptions.NothingOpen | internal/directive/option.go:58-74 | Nothing is reported missing exactly if the line ends outside quotes and brackets or without a field in progress |
| DirectiveOptions.FieldSpans | internal/directive/option.go:412-426 | One span per field, each with the equals sign that makes it an option |
| DirectiveOptions.OptionKeepsToItself | internal/directive/option.go:58-74 | An option written as key=value reads back, and does not touch what follows exactly if OptionsOpen finds nothing missing in it; a quoted value guarantees that |
| DirectiveOptions.Options.Put | internal/directive/option.go:116-131 | Stores the trimmed value under the lowercase key, and names a key that was there |
| DirectiveOptions.CollectOptions | internal/directive/option.go:84-100 | The last value of every key, and each repeated key named once |
| DirectiveQuotes.OneOption | internal/directive/option.go:84-131 | A token gives the lowercase trimmed key the trimmed rest; one without an equals sign is true where flags are allowed and nothing otherwise |
| DirectiveOptions.OptionsRoundTrip | internal/directive/option.go:52-100 | Options written out and read back are the same, with no key repeated |
| MockNumber.ParseNumber | internal/mock/number.go:91-125 | Parses to sign, digits without outer zeros and a capped exponent, or rejects |
| MockNumber.ParseExponent | internal/mock/number.go:31-65 | Reads an exponent with its sign |
| MockNumber.ScanExponent | internal/mock/number.go:50-61 | The loop that stops early yields the exponent capped at its limit, for any number of digits |
| MockNumber.LiteralParses | internal/mock/number.go:91-125 | Every literal parses, to its normal form |
| MockNumber.OnlyLiteralsParse | internal/mock/number.go:91-125 | Nothing else parses |
| MockNumber.ValueOfNormalForm | internal/mock/number.go:91-125 | Dropping zeros and counting them in the exponent keeps the exact value |
| MockNumber.ExponentsFitInt64 | internal/mock/number.go:23-65 | No step of the exponent arithmetic leaves int64 |
| MockNumber.ComparisonIsExact | internal/mock/number.go:135-158 | For literals up to 3*10^18 characters, the comparison is the order of the exact values iff not both exponents were capped on the same side or the values are equal |
| MockNumber.LongerLiteralsCanMislead | internal/mock/number.go:135-158 | A pair with a longer literal that is ordered the wrong way round |
| MockNumber.CmpIsTotalPreorder | internal/mock/number.go:135-158 | Comparison is a total preorder on all parsed numbers, capped or not, and says which it takes as equal |
| MockNumber.EqualJSONNumbersIsEquivalence | internal/mock/number.go:160-170 | Equality is an equivalence on all texts |
| MockNumber.JSONNumbersParse | internal/mock/number.go:91-170 | Every number of section 6 of RFC 8259 parses, whatever its length; two of them, up to 3*10^18 characters, are equal iff their values are or both exponents were capped on the same side |
| Reload.LoadDocuments | internal/mock/source.go:151-168 | The documents of the set in order, the overlay in place of its own file or joined to a directory |
| Reload.LoadedDocuments | internal/mock/source.go:151-168 | Every file in order, the overlay in place of its own, and also behind them iff it has no place in a whole directory but belongs there; one unreadable file spoils it |
| Reload.ResolvedFiles | internal/mock/source.go:106-146 | Which files are in scope, for a root that is missing, a file or a directory, with and without a list |
| Reload.Reloader.TakeFingerprint | internal/mock/reload.go:53-69 | What is hashed: the stats of files and known fixtures, and the overlay |
| Reload.Reloader.Reload | internal/mock/reload.go:27-51 | State and outcome of one call |
| Reload.StateRemembers | internal/mock/reload.go:27-69 | On every run the state is the one of a call that loaded: its fingerprint, fixtures and digest; that digest is served; and unless the last call failed, all calls since showed the same overlay |
| Reload.FingerprintPinsTheDisk | internal/mock/reload.go:53-69 | Equal fingerprints come from the same files and fixtures, each unchanged, although nothing separates files from fixtures in the hash |
| Reload.EqualFingerprintsEqualHandlers | internal/mock/reload.go:27-69 | A fingerprint taken with the previous fixture list that equals the stored one means the sources still compile to the same handler |
| Reload.ServedIsCurrent | internal/mock/reload.go:27-51 | After every call that does not fail, on any run of changes to files and fixtures on which no two neighbouring calls swap no overlay for an empty one, the digest of the last handler handed out is the digest of the current sources |
| Reload.FailureIsFollowedByAHandler | internal/mock/reload.go:36-51 | A failure leaves what is served alone, and the next success hands out a handler |
| Reload.NoNeedlessHandler | internal/mock/reload.go:43-50 | Without a failure before it, a handler is handed out only for a new digest |
| Reload.UnchangedSourcesGoQuiet | internal/mock/reload.go:27-51 | From any state, an unchanged world hands out nothing from the second call and loads nothing from the third on, or every call fails |
| Reload.MixedOverlaysCanBeStale | internal/mock/reload.go:60-68 | No overlay and an empty overlay at one path share a fingerprint: for any run with such a swap, a server and a disk, never touched, that serve the wrong text |
| Reload.OverlaysAreSafeUnlessMixed | internal/mock/reload.go:27-69 | A run of calls, of any length, leaves a current handler after every call that does not fail, on every server and whatever happens to the disk, exactly if no two neighbouring calls swap no overlay for an empty one, or back, at the same path |
| MockJournal.Capture | internal/mock/journal.go:160-198 | For any body, the handler reads the same bytes and the same end afterwards, and the record holds the first bytes up to the limit |
| MockJournal.ReadAllLimited | internal/mock/journal.go:169-176 | Reads a prefix up to the limit, and why it stopped |
| MockJournal.TruncatedMeansNotWhole | internal/mock/journal.go:160-198 | A record is marked truncated iff its body is not the whole of a clean stream |
| MockJournal.Journal.Add | internal/mock/journal.go:80-95 | Keeps as many of the newest entries as leave room, then the new one; one that cannot fit is refused and the journal turns incomplete |
| MockJournal.Journal.DropOldest | internal/mock/journal.go:97-104 | Takes off the oldest entry and its size |
| MockJournal.Journal.Clear | internal/mock/journal.go:106-112 | Starts over, complete |
| MockJournal.EvictKeepsMost | internal/mock/journal.go:85-90 | Eviction keeps the longest suffix that leaves room |
| MockJournal.RetainedSizeAddsUp | internal/mock/journal.go:200-216 | A record weighs every character of its request line, host, query and headers and every byte of its body, once |
| MockJournal.LimitsInForce | internal/mock/journal.go:54-78 | Limits that are given are in force; the others are 2000 entries, 16 MiB and 64 KiB |
| MockJournal.Journal.Count | internal/mock/journal.go:114-143 | A number that is returned is the number of all requests since the last clear that match; otherwise the journal says it is incomplete, exactly if an entry is missing or a truncated one might match, or the caller gave up |
| MockJournal.Journal.CompleteMeansAll | internal/mock/journal.go:80-112 | Completeness is claimed exactly if every request since the last clear is still there |
| MockJournal.VerdictIsTrue | internal/mock/pattern.go:107-134 | A verdict on a record holds of the whole request, and only a body that was cut leaves it open |
| MockJournal.ResolveLimits | internal/mock/journal.go:54-78 | The limits in force are positive and a body fits the journal |
| MockJson.ComparisonLaws | internal/mock/json.go:48-79 | Exact matching is an equivalence and subset matching a preorder, on all JSON values |
| MockJson.ExactIsSubsetBothWays | internal/mock/json.go:48-79 | Exact matching is subset matching both ways |
| MockJson.MatchingIsPlaceByPlace | internal/mock/json.go:48-79 | Matching, without recursion: every place of the pattern exists in the value and the two go together there - same kind, same length of arrays, equal numbers, same scalars and, in exact mode only, same names |
| MockJson.AddedFieldsDoNotMatter | internal/mock/json.go:48-79 | A subset pattern goes on matching when a field is added to an object at any depth |
| MockJson.FewerFieldsMatchMore | internal/mock/json.go:48-79 | The empty object is a pattern of exactly the objects; taking a field out of a subset pattern keeps matches; an exact match allows for neither more nor fewer fields |
| MockJson.GrammarIsUnambiguous | internal/mock/json_rules.go:49-105 | An accepted object is of operators or of fields, never both |
| MockJson.OperatorLeaf | internal/mock/json_rules.go:87-105 | Recognises an object of operators exactly, and its predicate is the conjunction of them |
| MockJson.NumberRule | internal/mock/json_rules.go:121-138 | Accepts exactly numbers, and the predicate is the true order of the exact values, for all literals up to 3*10^18 characters whose exponents were not capped on the same side; those count as equal, and what is no number never satisfies a rule |
| MockJson.NumberRulesAreExact | internal/mock/json_rules.go:121-138 | gt, gte, lt and lte between two literals hold iff their exact values stand in that relation, or, capped on the same side, iff the relation takes equal numbers |
| MockJson.OperatorsOrderValues | internal/mock/json_rules.go:14-20 | gt, gte, lt and lte are greater, at least, less and at most, in this order of operands |
| MockJson.OperandsAndChoices | internal/mock/json_rules.go:121-151 | What each operator takes, and oneOf as equality with an item place by place |
| MockJson.OneOfRule | internal/mock/json_rules.go:141-151 | Accepts exactly arrays that are not empty, and the predicate says that the value is exactly one of the items |
| MockJson.CompileOperator | internal/mock/json_rules.go:13-20 | Every operator name gets its own rule, with its own condition on the operand |
| MockJson.CompileRuleObject | internal/mock/json_rules.go:49-85 | Accepts exactly the objects of the grammar, whatever the order of names, and compiles them to a predicate that equals direct evaluation |
| MockJson.CompileRuleNode | internal/mock/json_rules.go:39-47 | The same for a node, which must be an object |
| MockJson.CompileJSONBody | internal/mock/json.go:19-41 | A body pattern and rules together: accepted iff the rules are, true iff both hold |
| Curl.TokenState.Advance | internal/curl/token_state.go:39-114 | One step of the quote machine in either mode: flags, index, what is emitted, and errors |
| Curl.ReadHex | internal/curl/tokenizer.go:98-113 | Exactly n hex digits and their value, or an error |
| Curl.SplitTokens | internal/curl/tokenizer.go:29-69 | The words of an input, or the error of its first bad or missing piece |
| Curl.Consume | internal/curl/scan.go:110-115 | The line scanner's flags after a line |
| Curl.LineContinues | internal/curl/scan.go:125-134 | True iff the line ends in an odd number of backslashes |
| Curl.ModesAgree | internal/curl/token_state.go:39-114 | On everything the tokenizer gets through, the scanner ends with the same quotes and the same pending escape; what the tokenizer accepts, the scanner finds closed |
| Curl.ContinuationIsEscape | internal/curl/scan.go:110-134 | After a line from a clean start an escape is pending exactly if lineContinues says so and no single quote is open |
| Curl.TokenizeInvertsQuoting | internal/curl/tokenizer.go:29-126 | Words in pieces come back exactly, with white space between: single-quoted, escaped, plain, in double quotes, in ANSI quotes with letter and hex escapes, and lines joined by a backslash |
| Curl.AnsiEscapeIs | internal/curl/tokenizer.go:71-126 | Every ANSI escape is read as its character, up to its last digit |
| Curl.QuotedWordsComeBack | internal/curl/tokenizer.go:29-69 | Any list of non-empty words survives quoting (sections 2.2.1 and 2.2.2 of the POSIX Shell Command Language) and tokenizing |
| JsonPath.Valid | internal/jsonpath/path.go:65-123 | True iff the path is empty, the root, or accepted by the scan of names and brackets |
| JsonPath.ValidBracket | internal/jsonpath/path.go:125-136 | Where a valid bracket ends |
| JsonPath.ReadQuoted | internal/jsonpath/path.go:212-238 | The key and the closing bracket of a quoted key, or none |
| JsonPath.ReadIndex | internal/jsonpath/path.go:197-210 | The index, what is skipped, or a missing bracket |
| JsonPath.Split | internal/jsonpath/path.go:138-160 | The segments of a path, valid or not |
| JsonPath.Get | internal/jsonpath/path.go:31-63 | Getting is looking the segments up one after the other |
| JsonPath.GetGoesDeeper | internal/jsonpath/path.go:31-63 | Getting goes one step deeper with every segment: into the n-th item from zero, into the field, and nowhere else |
| JsonPath.RootSignIsLeftOut | internal/jsonpath/path.go:31-90 | A root sign with its dot, and white space around, change neither what is got nor what is valid |
| JsonPath.EscapesMean | internal/jsonpath/path.go:240-257 | Escapes n, r and t are white space, any other character is itself |
| JsonPath.IndexTexts | internal/jsonpath/path.go:197-210 | Which texts are an index and which one, at 64 bits |
| JsonPath.CharacterClasses | internal/jsonpath/path.go:100-123 | What bare names may hold, and what is white space behind a quoted key |
| JsonPath.ValidatorAndSplitterAgree | internal/jsonpath/path.go:65-238 | The validator accepts exactly the grammar of names, quoted keys and indices, and on every accepted path the splitter yields one segment per step, in order |
| JsonPath.GetReadsWhatValidChecks | internal/jsonpath/path.go:31-123 | Get strips a valid path as the validator does |
| JsonPath.PrintRoundTrip | internal/jsonpath/path.go:31-238 | Any list of keys and indices printed in brackets is valid, splits back into the list, and getting it is the fold of single lookups |
| JsonPath.ResolveSplits | internal/jsonpath/path.go:31-63 | A path of two halves resolves one half after the other |
| Bindings.BuildMap | internal/bindings/bindings.go:219-335 | Whatever the order in which maps are visited: succeeds iff the table can hold the family, and then returns the table of exactly that family |
| Bindings.Collect | internal/bindings/bindings.go:219-247 | Overrides over defaults, without the soft defaults that yield |
| Bindings.AddAction | internal/bindings/bindings.go:254-315 | The sequences of one action are entered, or refused iff one does not fit or is taken |
| Bindings.HeldIsPrefixFree | internal/bindings/bindings.go:219-335 | With steps as they are parsed, the families that are held are exactly those of sequences with one or two steps, one for send-request, none of which is a prefix of another |
| Bindings.TableIsUnique | internal/bindings/bindings.go:219-335 | A family has one table, so iteration order leaves no trace |
| Bindings.LookupsAreTheFamily | internal/bindings/bindings.go:112-173 | The three lookups are exactly the relation of the family, and no key is both a shortcut and the start of a chord |
| Bindings.LookupsRepeatAsDefined | internal/bindings/bindings.go:112-173 | A shortcut never repeats, a chord exactly if the definition of its action says so |
| Bindings.RefsInOrder | internal/bindings/bindings.go:150-163 | The bindings of an action are its sequences in order, the empty ones left out |
| Bindings.CollidingIsPrefixing | internal/bindings/bindings.go:355-361 | Sequences collide iff one is a prefix of the other |
| Bindings.SoftDefaultsAreHarmless | internal/bindings/bindings.go:219-353 | With a default table that is fine by itself, overrides are accepted with the soft defaults iff they are accepted without them |
| Bindings.YieldingIsNeeded | internal/bindings/bindings.go:337-353 | A soft default that yields would spoil the table if it stayed |
| ByteSize.Parse | internal/bytesize/parse.go:21-42 | Returns v iff the text says v bytes and 0 <= v <= 2^63-1; anything else is an error |
| ByteSize.SizesAreProducts | internal/bytesize/parse.go:21-130 | A text says v bytes iff v is exactly (whole + fraction) times its unit, the units being 1, 1024, 1024^2 and 1024^3 in any case; with anything else behind the number it says nothing |
| ByteSize.SplitValue | internal/bytesize/parse.go:44-75 | Number and suffix of a size, or why there are none |
| ByteSize.SizeIsScanned | internal/bytesize/parse.go:44-75 | A size can be read in one way only, the one the scan finds |
| ByteSize.ScaleDecimal | internal/bytesize/parse.go:92-130 | Returns v iff decimal times multiplier is v exactly and v fits |
| ByteSize.ScaleTrimmed | internal/bytesize/parse.go:97-130 | The same once outer zeros are gone, both shortcuts included |
| ByteSize.ZerosDoNotCount | internal/bytesize/parse.go:92-102 | Zeros in front and behind do not change what a number says |
| ByteSize.FractionTooLong | internal/bytesize/parse.go:107-112 | Times 2^n, a decimal with more than n significant fractional digits is not whole |
| ByteSize.TooManyDigits | internal/bytesize/parse.go:103-105 | More than nineteen significant whole digits never fit |
| ByteSize.ScalesArePowersOfTwo | internal/bytesize/parse.go:77-90 | Every multiplier is two to the number of its trailing zeros |
| K8sRing.Ring.Push | internal/k8s/runtime_diag.go:100-106 | The ring holds exactly the last capacity elements of the whole history |
| K8sRing.OrderedPush | internal/k8s/runtime_diag.go:100-121 | Cursor arithmetic: the newest element stands where it was written, the others where they were |
| K8sRing.Collector.Push | internal/k8s/runtime_diag.go:174-184 | A closed collector takes nothing more |
| K8sRing.Collector.LatestPfErr | internal/k8s/runtime_diag.go:186-212 | The scan over the slots is the scan over the records, newest first |
| K8sRing.ScanFindsNewest | internal/k8s/runtime_diag.go:186-212 | The early-stopping scan returns the newest forwarding error inside both windows exactly if no younger record lies outside them, and nothing else |
| K8sRing.OrderedScanFindsNewest | internal/k8s/runtime_diag.go:186-212 | With non-decreasing time stamps it always does, and finds nothing iff there is nothing |
| K8sRing.WindowsOfOne | internal/k8s/runtime_diag.go:196-203 | A record counts from 300 milliseconds before the request on, and up to its greatest age if there is one |
| K8sRing.OthersArePassedOver | internal/k8s/runtime_diag.go:204-209 | A record that is no forwarding error does not hide those before it |
| K8sRing.LateRecordHides | internal/k8s/runtime_diag.go:186-212 | A late record with an old time stamp that hides an error |
| K8sRing.DiagState.RegisterCollector | internal/k8s/runtime_diag.go:123-136 | The registry after registering |
| K8sRing.DiagState.UnregisterCollector | internal/k8s/runtime_diag.go:138-153 | The registry after unregistering |
| K8sRing.RegistryKeepsNoEmptySlot | internal/k8s/runtime_diag.go:123-153 | Both touch one collector only, never leave an empty slot, and undo each other |
| K8sSession.RunKeepsInv | internal/k8s/session.go:48-99 | In every interleaving: a collector is registered until somebody starts to close it, by one thread only; no empty slot; threads close what they have to |
| K8sSession.ClosedAfterFinish | internal/k8s/session.go:48-99 | Once finish has returned, exactly the collector attached last and those that came too late are closed; any other one is registered, unless it came too late and is just being closed |
| K8sSession.LeakedExactly | internal/k8s/session.go:48-99 | When finish and all attachments of a collector have returned, it is never closed, on any continuation that does not attach it again, exactly if it was neither the last one attached nor turned away |
| K8sSession.BothReturnedMeansClosed | internal/k8s/session.go:48-99 | In every interleaving of finish and the one setDiag of a session, once both have returned the collector is closed and unregistered |
| K8sSession.FirstOfTwoLeaks | internal/k8s/session.go:82-99 | Two attachments to a session that goes on: the run after which the first collector is never closed, whatever follows short of attaching it again |

## Left out

- Reload.Reloader.Reload: one call sees one state of the disk, while the program reads files one after the other; a stat stands for the contents of its file and the hash for its input, so equal sizes and times with different contents, and hash collisions, are not modelled.
- OAuthFlights.LookupKeysOfResolved: starts from a normalised configuration and takes normalising it again as the identity; the fields of a configuration that do not enter a key are not followed into requests.
- OAuthFlights.NetworkFollowsAVainLook: the authorization-code flow is a fetch like any other; headless checks and filling in fields from a cached configuration are not modelled.
- MockNumber.ComparisonIsExact: proved for literals up to 3*10^18 characters, since longer ones can be ordered wrongly.
- MockJson.NumberRule: its exact meaning is for literals within the same bound.
- Curl.TokenizeInvertsQuoting: double quotes are read as this tokenizer reads them, which is looser than the POSIX Shell Command Language.
- DirectiveOptions.OptionsRoundTrip: for distinct lowercase keys and trimmed values that are quoted or leave nothing open.
- JsonPath.PrintRoundTrip: indices up to 2^63-1, the range of the program's integers on 64-bit platforms.
- Bindings.BuildMap: which error is reported first depends on map order and is not modelled; the built-in table of defaults is a parameter, and that it is prefix-free is a hypothesis of the theorem on soft defaults.
- K8sSession.ClosedAfterFinish: the error a session ends with and the waiting of Close are not modelled.
- Error texts; errors are told apart where a caller can tell them apart.
- Strings are sequences of characters, not of UTF-8 bytes; cache keys are sequences of bytes. Lowering letters is exact for ASCII only.
- Decoding of JSON text, with its check for duplicate names: rules and bodies are decoded values.
- Running commands, extracting credentials from their output, token requests and responses, serving HTTP, matching paths and media types: arbitrary answers or parameters.
- Finding a command in an editor buffer and stripping its prefixes: it inserts a space at a continued line, so nothing is preserved to prove.
- Option aliases, popping options and unknown-option errors: bookkeeping over the option map.
- Parsing and normalising of key names: the table is modelled on normalised steps.
- Floating-point statistics, durations, the user interface, git, collections on disk and reports.
