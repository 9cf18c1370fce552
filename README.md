# Polysui front end: verified decision logic

Polysui is a voting dApp on Sui (one vote per wallet per market). Its React front end lets a user
create a market, find it by ID, vote and manage its whitelist. All market
state lives on chain. This project models the deterministic decisions the
front end makes around those calls:

- **Error translation** (`MoveErrors`): `parseMoveError` turns a failed
  wallet or contract call into one of seven messages. It searches the
  error text for markers by substring containment, in a fixed priority
  order.
- **The market page** (`Market`), which covers:
  - whether the connected account has voted and is whitelisted;
  - `canVote`, `isEnded` and `isCreator`;
  - the vote total and the leading-option rule;
  - the days/hours/minutes countdown;
  - the component state that `fetchMarket`, the account-change effect,
    `handleVote` and `handleAddToWhitelist` update. This is the
    `MarketPage` class.
- **The create-market form** (`CreateMarket`), which covers:
  - the option list, kept between 2 and 10 entries;
  - the ordered submit validation, where the first failure wins;
  - newline-separated whitelist parsing;
  - the arguments of the `create_market` call;
  - the scan of the transaction's object changes for the new market, a
    loop proved against a specification function;
  - the form reset. The form state is the `CreateMarketForm` class.
- **The market search page** (`MarketSearch`): the ordered classification
  of a typed market ID and of the object the node returns, plus the page
  state in the `MarketSearchPage` class.

Two support modules complete the model:

- `JsText` models the JavaScript string built-ins the code relies on:
  - `trim`, with ECMAScript white space;
  - `includes` and `startsWith`;
  - `split` on a character;
  - the global `parseInt` with no radix;
  - decimal rendering of an integer in a template literal.
- `Chain` holds the values exchanged with the wallet and the node.

External inputs become parameters:

- Everything the node or the wallet answers is an input value: the result
  of `getObject`, the object changes of a transaction, whether waiting for
  a transaction succeeded, and the error payload passed to `onError`.
- The current time is a parameter `now`.
- The library predicate `isValidSuiObjectId` is a parameter of type
  `string -> bool`, and the package ID is a parameter. The file that
  defines the package and clock constants is not part of this model. The
  vote and whitelist calls pass the clock object `"0x6"` literally
  (`Chain.SystemClock`); the create call passes `TESTNET_CLOCK_ID`, whose
  value is not in this model, so it is the `clock` parameter of
  `CreateMarket.CreateMarketForm.Submit`.

Where two parts of the code disagree with each other, the model keeps
both as written. For example, `formatTime` reads "Ended" once
`remaining <= 0` (Market.tsx:237), while `isEnded` uses a strict `>`
(Market.tsx:269). So at `now == deadline` the countdown already reads
"Ended" while voting is still offered
(`Market.EndedAtDeadlineDisagreement`).

## Model

| member | source | states |
|---|---|---|
| JsText.TrimStartSpec | polysui-frontend/src/MarketSearch.tsx:21 | the result is a suffix of the input; it does not start with white space, and everything dropped is white space |
| JsText.TrimEndSpec | polysui-frontend/src/MarketSearch.tsx:21 | the result is a prefix of the input; it does not end with white space, and everything dropped is white space |
| JsText.TrimSpec | polysui-frontend/src/CreateMarket.tsx:58 | `trim` gives a trimmed infix of the input, everything before and after it is white space, and it is empty exactly when the input is all white space |
| JsText.TrimmedIsFixed | polysui-frontend/src/CreateMarket.tsx:79 | trimming a text without surrounding white space returns it unchanged |
| JsText.TrimIdempotent | polysui-frontend/src/MarketSearch.tsx:21 | trimming twice is trimming once |
| JsText.IncludesIff | polysui-frontend/src/Market.tsx:19-55 | `includes` holds exactly when the pattern occurs at some position of the text |
| JsText.IncludesTransitive | polysui-frontend/src/Market.tsx:26-28 | a text that includes `p` includes everything `p` includes |
| JsText.Split | polysui-frontend/src/CreateMarket.tsx:78 | `split` yields at least one piece, and no piece contains the separator |
| JsText.JoinSplit | polysui-frontend/src/CreateMarket.tsx:78 | joining the pieces with the separator gives back the text |
| JsText.SplitJoin | polysui-frontend/src/CreateMarket.tsx:77-80 | splitting pieces joined with a separator they lack gives back the pieces |
| JsText.DigitRun | polysui-frontend/src/CreateMarket.tsx:69 | `parseInt` reads the longest run of digits at the front |
| JsText.ParseInt | polysui-frontend/src/CreateMarket.tsx:69 | `parseInt` is `NaN` exactly when no digit follows the white space, the sign and any `0x` prefix |
| JsText.Decimal | polysui-frontend/src/Market.tsx:243-245 | a template literal renders a number as a non-empty run of decimal digits whose value is that number, with no leading zero, starting with `0` only for zero |
| JsText.ParseIntDecimal | polysui-frontend/src/CreateMarket.tsx:69 | `parseInt` reads a rendered number back exactly |
| MoveErrors.ErrorText | polysui-frontend/src/Market.tsx:15-18 | the text searched is the string itself, else a non-empty `message`, else the JSON form |
| MoveErrors.Classify | polysui-frontend/src/Market.tsx:19-56 | the reason picked is the highest-priority one some marker of which occurs; it is the generic failure exactly when no marker occurs |
| MoveErrors.MatchesUnfold | polysui-frontend/src/Market.tsx:19-55 | the markers of each reason, as the if-chain tests them |
| MoveErrors.ParseMoveError | polysui-frontend/src/Market.tsx:13-60 | the result is always one of the seven messages; it is "Transaction failed" when the text cannot be obtained |
| MoveErrors.MessageInjective | polysui-frontend/src/Market.tsx:23-58 | different reasons give different messages |
| MoveErrors.CancellationWins | polysui-frontend/src/Market.tsx:19-24 | a cancellation marker gives "Transaction cancelled by user" whatever abort code the text also carries |
| MoveErrors.AbortCodeFourIsAlreadyVoted | polysui-frontend/src/Market.tsx:25-31 | "code: 4" without a cancellation marker reads as already voted |
| MoveErrors.AbortMarkerSubsumed | polysui-frontend/src/Market.tsx:26-28 | every "abort code: N" marker contains "code: N", so the longer markers never decide anything |
| MoveErrors.CodeFortyReadsAsAlreadyVoted | polysui-frontend/src/Market.tsx:26-30 | because matching is containment, "abort code: 40" reads as already voted |
| MoveErrors.CodeThirteenReadsAsNotWhitelisted | polysui-frontend/src/Market.tsx:39-44 | "abort code: 13" reads as not whitelisted |
| MoveErrors.WhitelistFailureMessage | polysui-frontend/src/Market.tsx:216-223 | a whitelist failure shows the cancellation text exactly when the error is a cancellation, else "Failed to add address" |
| Market.CheckIfUserVoted | polysui-frontend/src/Market.tsx:85-89 | false when the market, its voters or the address is missing; otherwise membership of the address in `voters` |
| Market.StatusFor | polysui-frontend/src/Market.tsx:106-124 | with no account: not voted and whitelisted; voted iff in `voters`; a public market whitelists everyone; a whitelist market requires `voters` or `initial_voters` membership |
| Market.VoterCannotVoteAgain | polysui-frontend/src/Market.tsx:274 | an address among the voters can never vote again |
| Market.OutsiderCannotVote | polysui-frontend/src/Market.tsx:109-117 | on a whitelist market an address on neither list cannot vote |
| Market.EligibilityIff | polysui-frontend/src/Market.tsx:269-274 | a connected account can vote iff the deadline has not passed, it has not voted, and on a whitelist market it is an initial voter |
| Market.PublicMarketOpenToNewVoters | polysui-frontend/src/Market.tsx:269-274 | on a public market a new voter can vote exactly until the deadline passes |
| Market.CreatorCases | polysui-frontend/src/Market.tsx:91 | a connected account is the creator iff its address is the recorded creator; an absent account with an absent creator also counts |
| Market.TotalVotes | polysui-frontend/src/Market.tsx:270-272 | the total is 0 without a tally, and otherwise 0 exactly when every count is 0; no count exceeds it |
| Market.SumBounds | polysui-frontend/src/Market.tsx:271 | the sum is 0 iff all counts are 0, and it bounds every count |
| Market.MaxVote | polysui-frontend/src/Market.tsx:399 | `Math.max` of the counts is one of them and at least every count |
| Market.LeadingIff | polysui-frontend/src/Market.tsx:397-400 | an option leads iff it has a vote and no option has more; ties lead together |
| Market.NoLeaderWithoutVotes | polysui-frontend/src/Market.tsx:397-400 | with no votes cast no option leads |
| Market.SomeLeaderWithVotes | polysui-frontend/src/Market.tsx:397-400 | once a vote is cast some option leads |
| Market.ScenarioThreeToOne | polysui-frontend/src/Market.tsx:392-400 | counts [3, 1] give a total of 4; option 0 leads and option 1 does not |
| Market.CountdownTo | polysui-frontend/src/Market.tsx:236-245 | "Ended" iff nothing remains; otherwise whole days and hours (< 24), or hours (> 0) and minutes (< 60) under a day, or minutes (< 60) under an hour, each bracketing the remaining time |
| Market.FormatTime | polysui-frontend/src/Market.tsx:235-246 | the text is "Ended" exactly when the deadline is not in the future |
| Market.EndedAtDeadlineDisagreement | polysui-frontend/src/Market.tsx:269 | at the deadline the countdown reads "Ended" while the market is not ended and voting is still offered |
| Market.FormatTimeExample | polysui-frontend/src/Market.tsx:243 | a day and a half before the deadline the text is "1d 12h" |
| Market.FetchedFields | polysui-frontend/src/Market.tsx:99-105 | fields are taken exactly from a returned object whose content is a Move object |
| Market.AccountChangeCases | polysui-frontend/src/Market.tsx:133-143 | switching or disconnecting triggers the reset; connecting after opening the page disconnected does not |
| Market.MarketPage.constructor | polysui-frontend/src/Market.tsx:74-83 | the initial state: no data, loading, not voted, whitelisted, no pending vote or addition |
| Market.MarketPage.FetchMarket | polysui-frontend/src/Market.tsx:93-131 | a malformed ID only ends loading; a Move object replaces the data and recomputes the voter status; anything else keeps the last snapshot |
| Market.MarketPage.OnAccountChange | polysui-frontend/src/Market.tsx:133-143 | resets to loading, not voted, whitelisted, and asks for a fetch exactly when a recorded address changed; records the current account |
| Market.MarketPage.EnabledVoteButtonSubmits | polysui-frontend/src/Market.tsx:426 | an enabled vote button (`canVote` and no pending vote) means a connected account that has not voted, before the deadline, so `handleVote` goes past its already-voted guard |
| Market.MarketPage.BeginVote | polysui-frontend/src/Market.tsx:151-165 | after a recorded vote it only notifies; otherwise it marks the option pending and submits `vote(market, index, clock)` |
| Market.MarketPage.VoteSucceeded | polysui-frontend/src/Market.tsx:169-181 | the user has voted and nothing is pending; it fetches again only when waiting for the transaction worked |
| Market.MarketPage.VoteFailed | polysui-frontend/src/Market.tsx:182-187 | shows the translated error and clears the pending vote |
| Market.MarketPage.SetNewAddress | polysui-frontend/src/Market.tsx:345 | the address field takes the typed text |
| Market.MarketPage.BeginAddToWhitelist | polysui-frontend/src/Market.tsx:192-206 | a blank or malformed trimmed address is refused with no call; otherwise the trimmed address is submitted |
| Market.MarketPage.AddToWhitelistSucceeded | polysui-frontend/src/Market.tsx:210-215 | notifies, clears the field, fetches again and ends the addition |
| Market.MarketPage.AddToWhitelistFailed | polysui-frontend/src/Market.tsx:216-225 | shows the whitelist failure message and ends the addition |
| CreateMarket.WithOptionAdded | polysui-frontend/src/CreateMarket.tsx:32-36 | appends one empty option below ten options, otherwise changes nothing |
| CreateMarket.DropIndex | polysui-frontend/src/CreateMarket.tsx:40 | the filter by index removes exactly the element at that index and keeps the order |
| CreateMarket.WithOptionRemoved | polysui-frontend/src/CreateMarket.tsx:38-42 | removes exactly the option at the index when more than two remain, otherwise changes nothing |
| CreateMarket.WithOptionUpdated | polysui-frontend/src/CreateMarket.tsx:44-48 | only the chosen position changes; the length and other entries are kept |
| CreateMarket.EditsKeepOptionCount | polysui-frontend/src/CreateMarket.tsx:32-48 | no edit takes a list of 2 to 10 options out of that range |
| CreateMarket.NonBlank | polysui-frontend/src/CreateMarket.tsx:58 | the non-blank options as an order-preserving subsequence, untrimmed; exactly the blank ones are dropped |
| CreateMarket.TrimEach | polysui-frontend/src/CreateMarket.tsx:79 | each line is trimmed, one for one |
| CreateMarket.NonEmpty | polysui-frontend/src/CreateMarket.tsx:80 | the non-empty pieces, in order, and only the empty ones are dropped |
| CreateMarket.ParseWhitelist | polysui-frontend/src/CreateMarket.tsx:77-80 | every parsed address is non-empty, trimmed and a single line |
| CreateMarket.ParseWhitelistKeepsFilledLines | polysui-frontend/src/CreateMarket.tsx:77-80 | the parsed addresses are exactly the non-blank lines, trimmed, in their order |
| CreateMarket.NonEmptyTrimEach | polysui-frontend/src/CreateMarket.tsx:79-80 | trimming and then dropping empty pieces equals keeping the non-blank pieces and trimming them |
| CreateMarket.TrailingNewlineDropped | polysui-frontend/src/CreateMarket.tsx:77-80 | a whitelist ending in a newline keeps its last address and drops the empty line after it |
| CreateMarket.WhitelistAddresses | polysui-frontend/src/CreateMarket.tsx:75-86 | a public market sends no addresses; a whitelist market sends the parsed list |
| CreateMarket.WhitelistRoundTrip | polysui-frontend/src/CreateMarket.tsx:77-80 | addresses written one per line are parsed back exactly |
| CreateMarket.PassesBeforeIff | polysui-frontend/src/CreateMarket.tsx:53-86 | passing everything before position n of the check order means that no check ordered before n fails |
| CreateMarket.FirstFailureReported | polysui-frontend/src/CreateMarket.tsx:53-103 | on the values `handleSubmit` computes, the error reported fails and every check before it in the order wallet, options, question, duration, whitelist passes; a call is built iff no check fails |
| CreateMarket.RefusedAt | polysui-frontend/src/CreateMarket.tsx:53-86 | a check that fails after all earlier checks pass is the one reported, so the first failure wins |
| CreateMarket.SubmittedCallIsWellFormed | polysui-frontend/src/CreateMarket.tsx:93-103 | a built call has at least two non-blank options, a non-blank question, a duration that is NaN or at least 1, and a non-empty whitelist exactly in whitelist mode |
| CreateMarket.OneFilledOptionRefused | polysui-frontend/src/CreateMarket.tsx:58-61 | a single filled option is refused with "Please provide at least 2 options" |
| CreateMarket.DefaultDurationAccepted | polysui-frontend/src/CreateMarket.tsx:23 | the default duration "60" reads as 60 and passes |
| CreateMarket.NonNumericDurationPasses | polysui-frontend/src/CreateMarket.tsx:69-73 | a duration without digits parses to NaN and is not refused |
| CreateMarket.NoLeadingDigitIsNaN | polysui-frontend/src/CreateMarket.tsx:69 | text starting with no space, sign or digit parses to NaN |
| CreateMarket.LettersDurationIsNaN | polysui-frontend/src/CreateMarket.tsx:69 | the duration `"abc"` parses to NaN |
| CreateMarket.FirstMarketCreation | polysui-frontend/src/CreateMarket.tsx:129-139 | the position of the first created `VotingMarket` change, none being before it; none when no change qualifies |
| CreateMarket.FindCreatedMarket | polysui-frontend/src/CreateMarket.tsx:129-140 | the scan returns the ID of the first created `VotingMarket`, or "" when there is none or no changes are reported |
| CreateMarket.CreateMarketForm.constructor | polysui-frontend/src/CreateMarket.tsx:21-30 | the initial form: empty question, two empty options, duration "60", public, empty whitelist |
| CreateMarket.CreateMarketForm.SetQuestion | polysui-frontend/src/CreateMarket.tsx:235 | the question takes the typed text |
| CreateMarket.CreateMarketForm.SetDuration | polysui-frontend/src/CreateMarket.tsx:279 | the duration takes the typed text |
| CreateMarket.CreateMarketForm.SetAccessType | polysui-frontend/src/CreateMarket.tsx:294 | the access type takes the chosen value |
| CreateMarket.CreateMarketForm.SetWhitelist | polysui-frontend/src/CreateMarket.tsx:324 | the whitelist text takes the typed text |
| CreateMarket.CreateMarketForm.AddOption | polysui-frontend/src/CreateMarket.tsx:32-36 | the options become `WithOptionAdded` of the old ones and stay within 2 to 10 |
| CreateMarket.CreateMarketForm.RemoveOption | polysui-frontend/src/CreateMarket.tsx:38-42 | the options become `WithOptionRemoved` of the old ones and stay within 2 to 10 |
| CreateMarket.CreateMarketForm.UpdateOption | polysui-frontend/src/CreateMarket.tsx:44-48 | the options become `WithOptionUpdated` of the old ones and stay within 2 to 10 |
| CreateMarket.CreateMarketForm.Submit | polysui-frontend/src/CreateMarket.tsx:50-103 | the outcome is `ValidateSubmit` of the form; the form enters the creating state only when a call is built |
| CreateMarket.CreateMarketForm.CreateSucceeded | polysui-frontend/src/CreateMarket.tsx:110-168 | a found ID is shown and the form reset; with no ID, or when the lookup fails, the matching notice is given and the form kept; creation ends |
| CreateMarket.CreateMarketForm.CreateFailed | polysui-frontend/src/CreateMarket.tsx:169-180 | a failed transaction, or an error thrown while building it, notifies "Failed to create market. Please try again." and ends creation |
| CreateMarket.CreateMarketForm.ViewCreatedMarket | polysui-frontend/src/CreateMarket.tsx:210-213 | closes the dialog and opens the created market |
| MarketSearch.CheckObject | polysui-frontend/src/MarketSearch.tsx:46-69 | the object passes iff it is a Move object whose type starts with the package's `VotingMarket` type; a failed or empty fetch is "not found"; the content kind is checked before the type |
| MarketSearch.Search | polysui-frontend/src/MarketSearch.tsx:17-77 | blank input and bad format are refused first; it navigates, to the trimmed ID, iff that ID is well formed and names a Polysui market |
| MarketSearch.NoQueryForRejectedInput | polysui-frontend/src/MarketSearch.tsx:21-35 | a blank or malformed ID is refused whatever the node would answer, so no request is made |
| MarketSearch.OnlyTrimmedIdQueried | polysui-frontend/src/MarketSearch.tsx:37-44 | only the node's answer for the trimmed ID affects the outcome |
| MarketSearch.SearchIgnoresSurroundingSpace | polysui-frontend/src/MarketSearch.tsx:21 | surrounding white space does not change the outcome |
| MarketSearch.MarketSearchPage.constructor | polysui-frontend/src/MarketSearch.tsx:13-15 | empty ID, no error, not checking |
| MarketSearch.MarketSearchPage.HandleSubmit | polysui-frontend/src/MarketSearch.tsx:17-77 | shows the message of the search's refusal, or navigates with no error; checking starts at the request and ends when the object is refused |
| MarketSearch.MarketSearchPage.HandleInputChange | polysui-frontend/src/MarketSearch.tsx:79-84 | the field takes the typed text and any error is cleared |

## Left out

- Wallet signing and the node's client calls (`signAndExecute`, `getObject`, `getTransactionBlock`, `waitForTransaction`) are foreign I/O. Their outcomes are inputs to the methods that handle them.
- The 15-second poll of the market page calls the `fetchMarket` captured when the market ID last changed (Market.tsx:145-149), so it recomputes the voted and whitelisted flags for the account of that render. `Market.MarketPage.FetchMarket` takes the account as a parameter and does not capture this. In particular, after a wallet connects to a page opened while disconnected (no reset, see `Market.AccountChangeCases`), the poll does not recompute that wallet's flags.
- The timer of that poll, the 2-second delay before reading a transaction back, and the notification timer in `App.tsx` are timers and are not modelled.
- `isValidSuiObjectId` is a library predicate and is a parameter. The package ID and clock constants come from a file that is not part of this model.
- `JSON.stringify` is not modelled. Its result is an input, with `None` when it throws or yields `undefined`. A truthy `message` that is not a string is not modelled.
- Vote counts are naturals, so the float precision of `Number` above 2^53 and the exponent notation of large numbers are not modelled.
- The percentage bar is floating-point formatting and is not modelled.
- Clipboard access, JSX markup, CSS classes, the gas budget and the BigInt conversion of arguments are not modelled.
- `Home.tsx`, `App.tsx` and `main.tsx` are markup, page switching and bootstrap wiring, and are not part of this model.
- CreateMarket.CreateMarketForm.UpdateOption: requires the index to lie within the list. The page only calls it with the position of a rendered option, so the JavaScript array extension for larger indices is not modelled.
- An object whose fields are not those of a `VotingMarket` is not modelled. Neither is the render error that a market without a `votes` field causes.
- Whether the SDK's `tx.pure.u64` accepts a `NaN` or oversized duration is library behaviour and is not modelled; the model's call carries the parsed value. If the SDK throws, the `catch` of `handleSubmit` (CreateMarket.tsx:176-180) takes the path modelled by `CreateMarket.CreateMarketForm.CreateFailed`.
- The whitelist-manager panel toggle, the share button and the dialog's close and copy buttons only flip display flags or call browser APIs, and are not modelled.
