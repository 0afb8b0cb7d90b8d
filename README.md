# Escalate client rules, modelled in Dafny

Escalate is a card-bluffing game with an auction market. Its engine
(hands, stakes, bluff checks, escrowed bids) runs in a remote contract; this
browser client only sends calls to it. This project models the rules the
client itself implements and proves properties of them:

- **Cards** (`types.dfy`, module `Types`): the fourteen card values, the
  fixed order `CARD_OPTIONS` whose index is every sort key, the wire names,
  and the record shapes `User`, `Stake`, `Hand` and `Offer`.
- **Values** (`js.dfy`, module `Js`): the loosely typed JavaScript values the
  client inspects (wallet answers, contract results), JavaScript
  truthiness, property reads, the `a ?? b ?? c` chain and `String(n)` for
  integers, with a reader that proves the decimal text names `n`.
- **Application shell** (`app.dfy`, module `App`): `shorten`, which
  abbreviates ids for display; the card-selection toggle of
  `handleToggleCard`, bounded by how many copies the user owns; and the
  per-action status board of `setAction`/`runAction` as a class.
- **Card picker** (`ui.dfy`, module `Ui`): the tallies `counts` and
  `selectedCounts`, built by a loop over the cards; the pill order
  `uniqueCards`; and each pill's picked/total, "active" and "max".
- **Call surface** (`services.dfy`, module `Escalate`): `assertAddress`,
  `normalizeCards`, the API method and parameter table, and the decoding of
  the result envelope in `exec` (an optional `txn_result` JSON string, then
  an `Ok`/`Err` wrapper).
- **Wallet hook** (`wallet.dfy`, module `WeilWallet`): `extractAccountId`
  with its priority-ordered search of account objects, and the
  status/account/wallet state that `connect`, `disconnect`, the
  accounts-changed handler and the mount-time restore update, as a class.

Foreign calls are parameters. `wallet.contracts.execute`, `JSON.parse`,
`JSON.stringify` and `toString()` are function-typed arguments. The wallet
provider's answers are plain input values (`ConnectAnswers`, the accounts
value, the task and refresh outcomes of an action).

Behaviour worth knowing, as the code has it:
- `normalizeCards` runs while the call's arguments are built. An
  unsupported card is therefore reported before the missing-address check
  (`Escalate.InvokeErrorOrder`).
- The bid amount travels under the key `bid_amout`. A reader of the rules
  might expect `bid_amount`; the model follows the code.
- A `txn_result` that parses to a non-object (a number, a string, `null`)
  makes the following `'Ok' in …` test throw a TypeError
  (`Escalate.DecodePrimitiveTxnResult`). Its message follows V8's wording.
- A failed `connect` leaves the previous account and wallet in place. Only
  the status and the error change (`WeilWallet.WalletHook.FinishConnect`).
- An accounts-changed event whose first entry yields no id sets the account
  to none but keeps the status "connected".
- `disconnect` does not clear the error.
- Resolving or withdrawing with an empty offer id still marks that action done. The only sign of the missing id is the notice the task sets, which stays unless the refresh fails (`App.ActionBoard.HandleResolve`).
- The `primary.length === 0` guard in `connect` can never fire: an
  extracted id is never empty (`WeilWallet.ConnectSucceedsIff`).

## Model

| member | source | states |
|---|---|---|
| Types.CardOptionsAreTheCards | src/types/escalate.ts:65-80 | `CARD_OPTIONS` has 14 entries, holds every card exactly once, runs ACE…KING then JOKER, and position i holds the card of rank i |
| Types.Rank | src/components/ui.tsx:45 | `CARD_OPTIONS.indexOf(c)`: the position at which `c` stands in the order |
| Types.CardNames | src/types/escalate.ts:65-80 | the card list as strings: fourteen pairwise distinct names, the one at position i parsing back to the card at position i |
| Types.NamesParseBack | src/types/escalate.ts:65-80 | every entry of the order has a name that parses back to it, and distinct entries have distinct names |
| Types.ParseCard | src/types/escalate.ts:1-15 | a string accepted as a card is that card's literal name |
| Types.ParseCardName | src/types/escalate.ts:1-15 | every card's literal name is read back as that card |
| Types.CardNamesAreTheUnion | src/types/escalate.ts:1-15 | a string is accepted as a card exactly when it is in `CARD_OPTIONS`; names and cards correspond one to one |
| Types.OfferBidFieldsAreIndependent | src/types/escalate.ts:37-44 | every combination of bid present/absent, bidder present/absent and resolved is a well-formed offer |
| Js.Coalesce | src/hooks/useWeilWallet.ts:20-28 | the `??` chain yields the first property that is neither null nor undefined, and is nullish only when all of them are |
| Js.NatDigits | src/App.tsx:31 | the decimal digits of a natural number: non-empty, digits only, no leading zero |
| Js.DecimalRoundTrip | src/App.tsx:31 | `String(n)` for an integer reads back as `n` and starts with a minus sign exactly when `n` is negative |
| Js.Decimal | src/App.tsx:31 | `String(n)` for an integer: never empty; `DecimalRoundTrip` shows it reads back as `n` |
| App.Shorten | src/App.tsx:26-40 | `shorten` itself: a string, a number or an address-bearing object becomes its display text, anything else "Not connected"; its properties are the four `Shorten…` lemmas |
| App.ShortenString | src/App.tsx:27-30 | a string of length at least 10 becomes its first 6 characters, "...", its last 4: 13 in all; a shorter one is unchanged |
| App.ShortenIdempotent | src/App.tsx:26-31 | abbreviating an abbreviated string changes nothing |
| App.ShortenNumber | src/App.tsx:31 | a number is shown as its decimal string, which reads back as the number |
| App.ShortenObject | src/App.tsx:32-39 | an object is shown by the first non-nullish of `address`, `addr`, `id` when that is a string, else "Not connected"; null, undefined and booleans give "Not connected" |
| App.Without | src/App.tsx:157 | removing a card drops every copy of it and keeps the count of every other card |
| App.Toggle | src/App.tsx:152-160 | the next selection after a click; its properties are `ToggleEffect`, `ToggleKeepsOthers`, `ToggleStaysWithinAvailable` and `ToggleCycles` |
| App.ToggleEffect | src/App.tsx:152-160 | at or above the owned count every copy of the card is removed; below it exactly one copy is appended at the end |
| App.ToggleKeepsOthers | src/App.tsx:155-160 | a toggle keeps the other cards' counts and their relative order |
| App.ToggleStaysWithinAvailable | src/App.tsx:152-160 | a selection within the owned cards stays within them once toggled, card by card and as a multiset; a card with no owned copy is never added |
| App.ToggleCycles | src/App.tsx:152-160 | clicking a card repeatedly fills the selection up to the owned count and the next click clears it |
| App.HandleToggle | src/App.tsx:144-165 | the next selection together with the error the picker shows, characterised by `HandleToggleError` |
| App.MaxPillMeansNextClickClears | src/components/ui.tsx:52-59 | a pill shows "max" exactly when the next click removes that card from the selection, and otherwise the click appends one copy |
| App.HandleToggleError | src/App.tsx:161-164 | after a toggle the error is the picker's empty-selection message exactly when the selection is empty, and is cleared otherwise |
| App.ActionBoard.constructor | src/App.tsx:90-101 | every action starts idle |
| App.ActionBoard.SetAction | src/App.tsx:108-109 | only the named action's status changes |
| App.ActionBoard.Begin | src/App.tsx:167-173 | without an API only the notice changes; with one the action is loading and the notice is cleared |
| App.ActionBoard.Settle | src/App.tsx:174-181 | a task that completes marks the action done; the notice is the one the task set, or the previous one if it set none, unless a failed refresh replaces it with its message or the default; a task that throws marks it idle and shows its message or the default |
| App.ActionBoard.RunAction | src/App.tsx:167-182 | without an API no status changes and the notice asks for a connection; otherwise a completed task ends done with the notice it set (none for eight of the ten tasks), or the refresh failure notice; a thrown task ends idle with its message or the default |
| App.OfferIdTask | src/App.tsx:322-336 | the task of `handleResolve` and `handleWithdraw`, characterised by `ActionBoard.HandleResolve` and `ActionBoard.HandleWithdraw` |
| App.ActionBoard.HandleResolve | src/App.tsx:321-329 | without an API only the notice asking for a connection changes; an empty offer id ends the resolve action done with "Offer id is required to resolve." shown; otherwise the call decides done (no notice) or idle (its error); after a completed task a failed refresh replaces the notice with its message or the default |
| App.ActionBoard.HandleWithdraw | src/App.tsx:331-339 | without an API only the notice asking for a connection changes; an empty offer id ends the withdraw action done with "Offer id is required to withdraw a bid." shown; otherwise the call decides done (no notice) or idle (its error); after a completed task a failed refresh replaces the notice with its message or the default |
| Ui.CountCards | src/components/ui.tsx:32-42 | the tally holds exactly the cards that occur, each with its number of occurrences |
| Ui.Present | src/components/ui.tsx:44-46 | the order filtered by the tally's keys holds exactly the cards that are keys |
| Ui.PresentKeepsOrder | src/components/ui.tsx:44-46 | filtering the strictly ordered `CARD_OPTIONS` keeps it strictly ordered |
| Ui.SortedKeys | src/components/ui.tsx:44-46 | `uniqueCards`: the tally keys in `CARD_OPTIONS` order, proved to be the owned values in strictly increasing rank by `SortedKeysOf` |
| Ui.SortedKeysOf | src/components/ui.tsx:44-46 | the sorted keys are exactly the owned card values, in strictly increasing rank |
| Ui.CardPills | src/components/ui.tsx:23-80 | the picker defined from the multiset counts; `RenderPills` computes it and `CardPillsFaithful` states its properties |
| Ui.PillsOf | src/components/ui.tsx:51-59 | one pill per card, in order, with its picked and owned counts |
| Ui.RenderPills | src/components/ui.tsx:23-80 | the pills computed from the two tallies are those the multiset counts determine |
| Ui.BuildPills | src/components/ui.tsx:51-59 | reading totals from the tally and picked counts from the selection tally (0 when absent) yields the pills the multiset counts determine |
| Ui.CardPillsEmpty | src/components/ui.tsx:48-77 | the "No cards available." branch is taken exactly when nothing is owned |
| Ui.CardPillsCover | src/components/ui.tsx:32-51 | the pills show exactly the owned card values |
| Ui.CardPillsOrdered | src/components/ui.tsx:44-46 | pills run in strictly increasing `CARD_OPTIONS` order, so no card value repeats |
| Ui.CardPillsCounts | src/components/ui.tsx:52-59 | each pill shows the selected and owned counts of its card (at least one owned); "max" iff picked ≥ total; "active" iff picked > 0 |
| Ui.CardPillsFaithful | src/components/ui.tsx:32-77 | no pills exactly when nothing is owned; otherwise one pill per owned card value, in `CARD_OPTIONS` order; picked and total are the selected and owned counts (total positive); "max" iff picked ≥ total; "active" iff picked > 0 |
| Escalate.NormalizeCards | src/services/escalate.ts:11-17 | the cards come back unchanged exactly when all are supported; otherwise the error names the first unsupported card |
| Escalate.Supported | src/services/escalate.ts:13 | `CARD_OPTIONS.includes(card)`; `SupportedIsCardName` shows it holds exactly for card names |
| Escalate.SupportedIsCardName | src/services/escalate.ts:13 | a name passes the check exactly when it is the name of a card |
| Escalate.AddressError | src/services/escalate.ts:5-9 | `assertAddress`: the missing-address error for an empty address; its effect on a call is `ExecWithoutAddress` |
| Escalate.Unwrap | src/services/escalate.ts:43-58 | the `Ok`/`Err` unwrapping, characterised by `UnwrapOkFirst`, `UnwrapErr` and `DecodePassesThrough` |
| Escalate.Decode | src/services/escalate.ts:29-61 | decoding of a raw contract result, characterised by the `Decode…` lemmas and `EnvelopeRoundTrip` |
| Escalate.Exec | src/services/escalate.ts:23-62 | `exec`: the address check, the contract call, then `Decode`; see `ExecWithoutAddress` |
| Escalate.RequestOf | src/services/escalate.ts:64-85 | the method/parameter table; `RequestRoundTrip` proves it one to one and fails only on unsupported cards |
| Escalate.Invoke | src/services/escalate.ts:64-85 | an API function: build the request, then `exec` it; ordered by `InvokeErrorOrder` |
| Escalate.DecodeTxnResult | src/services/escalate.ts:33-41 | a string `txn_result` is parsed and its content unwrapped; if it does not parse, the raw result is returned unchanged |
| Escalate.UnwrapOkFirst | src/services/escalate.ts:43-50 | `Ok` is checked before `Err`; a string payload is parsed, with its parse error thrown; any other payload is returned as it is |
| Escalate.UnwrapErr | src/services/escalate.ts:52-55 | an `Err` is thrown with its string verbatim, or with its JSON text when it is not a string |
| Escalate.DecodePassesThrough | src/services/escalate.ts:30-61 | non-objects, and objects with neither `Ok`, `Err` nor a string `txn_result`, are returned unchanged |
| Escalate.DecodePrimitiveTxnResult | src/services/escalate.ts:36-44 | a `txn_result` that parses to a non-object makes the decode throw |
| Escalate.EnvelopeRoundTrip | src/services/escalate.ts:29-61 | a payload wrapped in `Ok` and `txn_result` decodes back to the payload; an `Err` message decodes back to the thrown message |
| Escalate.ExecWithoutAddress | src/services/escalate.ts:5-9 | with an empty contract address the call fails with the address message and the contract is never consulted |
| Escalate.StartHandRoundTrip | src/services/escalate.ts:69-70 | `start_hand` is sent exactly when every card is supported, with `claim` and `cards` from which the call reads back |
| Escalate.StakeRoundTrip | src/services/escalate.ts:74-75 | `stake` is sent exactly when every card is supported, with `hand_id` and `cards` from which the call reads back |
| Escalate.OfferRoundTrip | src/services/escalate.ts:77-78 | `offer` is sent exactly when every card is supported, with `cards` and `amount` from which the call reads back |
| Escalate.RequestRoundTrip | src/services/escalate.ts:64-85 | every call whose cards are supported sends a fixed method with fixed parameter names (`bid_amout` included), from which the call is read back unambiguously; the request fails exactly when a card is unsupported |
| Escalate.InvokeErrorOrder | src/services/escalate.ts:69-78 | an unsupported card is reported before the address check; neither failure reaches the contract |
| WeilWallet.ExtractAccountId | src/hooks/useWeilWallet.ts:8-48 | an extracted id is never empty, through any depth of nesting |
| WeilWallet.ExtractPrimitive | src/hooks/useWeilWallet.ts:9-13 | a non-empty string is returned unchanged, a number as its decimal string; an empty string, null, undefined and booleans give none |
| WeilWallet.ExtractFromObject | src/hooks/useWeilWallet.ts:16-43 | the first non-nullish of address, addr, id, account, accountId, wallet, walletAddress, publicKey decides: a non-empty string is the id, an object is searched in turn, anything else falls back to the object's text |
| WeilWallet.ExtractWithoutProperties | src/hooks/useWeilWallet.ts:37-47 | an object with none of the properties is identified only by its text |
| WeilWallet.ExtractByText | src/hooks/useWeilWallet.ts:37-47 | when no property gives a non-empty string or an object, the id is the object's text exactly when that text exists, is non-empty and is not "[object Object]"; otherwise there is none |
| WeilWallet.ExtractNested | src/hooks/useWeilWallet.ts:32-35 | `{ account: { address: a } }` yields `a` |
| WeilWallet.ConnectResult | src/hooks/useWeilWallet.ts:92-130 | the account `connect` settles on, or its error message, characterised by `ConnectSucceedsIff` |
| WeilWallet.ConnectSucceedsIff | src/hooks/useWeilWallet.ts:93-130 | connecting succeeds exactly when both readiness checks pass and the accounts answer is a non-empty array whose first entry yields an id; that id is the account and is never empty |
| WeilWallet.WalletHook.constructor | src/hooks/useWeilWallet.ts:55-58 | no wallet, idle, no account, no error; `Valid()` (connected implies a wallet, a wallet implies a provider) holds from the start |
| WeilWallet.WalletHook.BeginConnect | src/hooks/useWeilWallet.ts:84-91 | without a provider, straight to error; otherwise connecting with the error cleared; `Valid()` is kept |
| WeilWallet.WalletHook.FinishConnect | src/hooks/useWeilWallet.ts:92-138 | connected with the extracted account and a wallet, or error with a message while the account and wallet stay as they were; `Valid()` is kept |
| WeilWallet.WalletHook.Connect | src/hooks/useWeilWallet.ts:84-139 | ends connected exactly when the provider exists and `ConnectResult` succeeds; otherwise it ends in error with a message; `Valid()` is kept |
| WeilWallet.WalletHook.Disconnect | src/hooks/useWeilWallet.ts:141-148 | wallet and account become none, status idle; `Valid()` is kept |
| WeilWallet.WalletHook.AccountsChanged | src/hooks/useWeilWallet.ts:154-170 | an empty or non-array event clears the wallet and account and goes idle; otherwise the account follows the first entry; `Valid()` is kept |
| WeilWallet.WalletHook.Hydrate | src/hooks/useWeilWallet.ts:60-82 | with the mount-time effect: when the provider reports a connection, the first account's id is restored and the hook becomes connected with a wallet; an empty list clears the account only; no connection or a failed read changes nothing; the error is untouched; `Valid()` is kept |

## Left out

- The game and auction engine: hand creation, staking, bluff scoring, bid escrow, resolve and withdraw. It runs in the remote contract; the client only sends calls. The rules text in src/pages/HowToPage.tsx is documentation, not code.
- Foreign I/O: `wallet.contracts.execute`, the wallet provider's requests, `window.open` and console logging. Their results are input values or function parameters.
- The internals of `JSON.parse`, `JSON.stringify` and `toString()`. They are parameters.
- Escalate.EnvelopeRoundTrip: proved for parse/stringify functions that invert each other on the values involved, stated as preconditions, because both are parameters.
- Numbers: JavaScript numbers are modelled as integers. Fractions, NaN, Infinity and the exponent form `String` uses from 1e21 up are not modelled.
- App.ShortenString: lengths and slices count Dafny characters, not UTF-16 code units as JavaScript strings do.
- `validatePositive` and `balance.toFixed(2)`: floating-point parsing and formatting.
- `refreshData`'s parallel fetches and the state they fill. Only whether the refresh failed, and so sets the notice, is an input to App.ActionBoard.Settle.
- The form handlers other than `handleResolve` and `handleWithdraw` (`handleRegister`, `handleStake`, …): their field-error updates and input clearing are not modelled, and neither is the clearing of the offer id fields by `handleResolve` and `handleWithdraw` after a successful call. Only their outcome reaches App.ActionBoard.RunAction: completed without setting the notice, or thrown.
- `connectLabel` and `handleConnectClick`: display and dispatch only.
- The hook's `mounted` flag and event subscription (concurrency plumbing).
- WeilWallet.ExtractAccountId: a `toString()` that throws or returns a non-string is not modelled. Values are acyclic here, so the model always terminates where JavaScript would overflow its stack on a self-referencing object.
- Arrays carry no named properties in the model. Index keys are never used as property names here.
- App.HandleToggle always updates the error. `setError` is optional in the source, but every caller passes one.
- The `as T` casts of `exec` check nothing and have no model.
- Page components, `SectionCard`, `Input`, `ActionRow`, the card icon tables, `Image` and the Vite declarations: rendering and declarations only.
