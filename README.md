# Flight surety oracles: a verified model

This project models the sequential logic of a flight-insurance dapp's oracle
server and browser client, and proves properties of it in Dafny.

- **Oracle server** (`oracle_server.dfy`, module `OracleServer`). The server
  keeps a registry that maps each oracle account to the indexes the on-chain
  contract assigned it. The registry is a JavaScript `Map`, modelled as a
  sequence of (account, indexes) pairs in insertion order with distinct
  accounts. `set` on a present key replaces its value in place.
  For each `OracleRequest` event the server does three things:
  - a nested loop collects `approvedOracles`, with one entry for every
    registry slot that equals the event's index;
  - it picks one status code from the table `[0, 10, 20, 30, 40, 50]`;
  - it issues one `submitOracleResponse` per approved entry.
  The class `Server` holds the registry. `Server.MatchOracles` and
  `Server.OnOracleRequest` are proved against the specification functions
  `Matches` and `ChooseStatus`. Lemmas prove what `Matches` means:
  soundness and completeness, multiplicity, order, and the empty case.
- **Dapp contract wrapper** (`dapp_contract.dfy`, module `DappContract`).
  The class `Contract` has the fields `owner`, `airlines` and `passengers`.
  `Initialize` is the callback that receives the node's accounts. Its two
  `while` loops are proved against the account positions they read. The
  payload of `fetchFlightStatus` and the fixed amount of `setAirlineFund` are
  modelled by the request each sends and what each hands its callback.
- **Dapp airline lookups** (`dapp_airlines.dfy`, module `DappAirlines`).
  These are `defaultAirlinesAddress` and `getAirlinesAddress`. The `switch` is
  modelled with JavaScript's entry and fall-through rules, so the missing
  `break` is part of the model. The `if` followed by an `if/else` is modelled
  as two successive assignments.
- `common.dfy` (module `Common`) holds `Address`, and `Option`, which stands
  for `undefined`.

Parameters stand for the outside world:
- `nowMs` is `Date.now()`;
- `accounts` is what `getAccounts` hands its callback (`None` when no list
  came back);
- the `OracleRequest` callback's `error` and `event` (`None` when no event
  came with the error);
- `resolved` gives the order in which the oracles' `getMyIndexes` calls came
  back;
- `txError` and `txResult` are how a transaction ended.

JavaScript reads past the end of an array give `undefined` and never throw.
So `owner`, `airlines` and `passengers` hold `Option<Address>`, and
`Initialize` has no precondition on how many accounts there are.

## Model

| member | source | states |
|---|---|---|
| `OracleServer.Server.constructor` | src/server/server.js:13 | The registry starts empty. |
| `OracleServer.Server.SetOracle` | src/server/server.js:29 | `oracles.set(account, indexes)` updates the registry by `Put` and keeps the accounts distinct. |
| `OracleServer.Server.RegisterOracles` | src/server/server.js:19-30 | The registry after `registerOracles` is the result of its `set` calls, applied in the order the accounts' indexes came back. Accounts stay distinct. |
| `OracleServer.PutLookup` | src/server/server.js:29 | After a `set`, the key reads back the new indexes. Every other key reads as before. |
| `OracleServer.PutExisting` | src/server/server.js:29 | A repeat `set` replaces the value at the key's own position. No other entry changes. |
| `OracleServer.PutNew` | src/server/server.js:29 | A `set` on a new account appends it after all the existing entries. |
| `OracleServer.PutDistinct` | src/server/server.js:13-29 | A `set` never creates a second entry for an account. |
| `OracleServer.Server.MatchOracles` | src/server/server.js:51-60 | The nested loop builds exactly `Matches(oracles, indexFromEvent)`. It has no `modifies` clause, so the registry is only read. |
| `OracleServer.MatchesMembership` | src/server/server.js:53-60 | An account is approved iff some registry entry of it holds the event's index, in both directions. |
| `OracleServer.MatchesMultiplicity` | src/server/server.js:54-57 | A registered oracle is approved once per slot equal to the index, with duplicates kept. An unregistered account is never approved. |
| `OracleServer.SlotMatchesCount` | src/server/server.js:54-57 | One entry contributes its account exactly as many times as the index occurs among its slots. |
| `OracleServer.MatchesAppend` | src/server/server.js:53-54 | Approvals follow registry order: those of earlier entries all come before those of later entries. |
| `OracleServer.SlotMatchesAppend` | src/server/server.js:54-57 | Within one entry, approvals follow slot order. |
| `OracleServer.NoMatchesWhenNoHolder` | src/server/server.js:51-60 | If no entry holds the index (an empty registry included), `approvedOracles` is empty. |
| `OracleServer.ChooseStatus` | src/server/server.js:47-64 | The chosen code is in the status table. It is `status[2]` (20) iff `timestamp * 1000 < now`, strictly, and otherwise `status[0]` (0). It is never 10, 30, 40 or 50. |
| `OracleServer.Server.OnOracleRequest` | src/server/server.js:38-69 | A subscription error is only logged and handling goes on. When no event comes with it, reading the event's fields throws and nothing is submitted. Otherwise there is exactly one submission per approved entry, in the same order. Each one is sent from that oracle with gas 500000. Each carries the event's index, airline, flight and timestamp and the one chosen code. |
| `OracleServer.SubmissionsPerOracle` | src/server/server.js:53-69 | Each oracle sends one submission per slot holding the event's index. An oracle with no such slot, or one that is not registered, sends none. |
| `DappContract.Contract.constructor` | src/dapp/contract.js:12-14 | The owner starts as `null` and both lists start empty. |
| `DappContract.Contract.Initialize` | src/dapp/contract.js:18-32 | When `getAccounts` gives no list, reading `accts[0]` throws: no field changes and the caller's callback never runs. Otherwise the owner is `accts[0]`. Each list keeps its old entries, and then appends the accounts at the positions given by `AirlinePositions` or `PassengerPositions`, up to a length of 5. `counter` ends one past the last position read, and the callback runs. |
| `DappContract.TopUp` | src/dapp/contract.js:24-29 | A `while (length < 5)` loop brings the list to exactly 5 entries, or leaves a longer list alone. |
| `DappContract.PositionsStrictlyIncreasing` | src/dapp/contract.js:20-30 | The owner position 0, the airline positions and the passenger positions are strictly increasing, so no account position is used twice. |
| `DappContract.FromEmptyLists` | src/dapp/contract.js:13-30 | From empty lists, the airlines are `accts[1..6)` in order, the passengers are `accts[6..11)` in order, and `counter` ends at 11. |
| `DappContract.Contract.FetchFlightStatus` | src/dapp/contract.js:50-62 | The payload is the first airline (`undefined` if there is none), the flight unchanged, and `floor(now / 1000)` seconds. The transaction sends exactly these from the owner. The callback gets the transaction's error and this payload, not the transaction result. |
| `DappContract.Contract.SetAirlineFund` | src/dapp/contract.js:64-71 | The funding transaction always carries 10 ether, from the owner, for the given airline. |
| `DappAirlines.DefaultAirlinesAddress` | src/dapp/index.js:145-160 | Id '1' gives the first address, '2' the second and '3' the third. Any other id gives `undefined`. |
| `DappAirlines.DefaultSwitchEntry` | src/dapp/index.js:147-157 | Control enters the clause labelled with the id, or the `default` clause for any other id. |
| `DappAirlines.FallThroughRuns` | src/dapp/index.js:147-158 | Under JavaScript's fall-through rules, the switch gives the three addresses for '1', '2' and '3'. For any other id it leaves the local unchanged. |
| `DappAirlines.MissingBreakIsHarmless` | src/dapp/index.js:154-157 | Adding the missing `break` after case '3' changes no result, because `default` only breaks. |
| `DappAirlines.GetAirlinesAddress` | src/dapp/index.js:162-171 | The result is always defined. It is the second address iff the id is '3' or '4', and the third address otherwise, '1' and '2' included. It is never the first address. |
| `DappAirlines.GetAirlinesAddressLosesFirst` | src/dapp/index.js:164-169 | As written, ids '1' and '2' get the third address, not the first. |
| `DappAirlines.IntendedAirlinesAddress` | src/dapp/index.js:164-169 | With the `else` restored: '1' and '2' give the first address, '3' and '4' the second, and every other id the third. |
| `DappAirlines.IntendedDiffersOnlyOnFirstBranch` | src/dapp/index.js:164-169 | The corrected lookup differs from the written one exactly on ids '1' and '2'. |

## Left out

- Web3 and network calls are not modelled. This covers `registerOracle`,
  `getMyIndexes`, `getAccounts`, `isOperational`, `registerAirline` and
  `buyInsurance`, the sending of `submitOracleResponse`, `fetchFlightStatus`
  and `setAirlineFund`, the WebSocket and HTTP providers, and the event
  subscription. Only the requests the code builds are modelled.
- The express `/api` route is not modelled. It is HTTP glue with no logic.
- The async `forEach` in `registerOracles` and in the submission fan-out is
  not modelled as concurrent. Registration is a sequence of `set` calls in a
  given completion order. The fan-out is the ordered list of submissions
  issued. Promise resolution and the logging of rejections are out.
- The `try/catch` around `registerOracles` is not modelled. It cannot catch
  errors from the inner async callbacks, so it has no effect on the registry.
- Index assignment, the registration guard and the quorum tally are not
  modelled. They happen in the on-chain FlightSuretyApp contract, which is not
  part of this model.
- `Date.now()` and `new Date(...)` are the parameter `nowMs`.
- `web3.utils.toWei` and `fromAscii` are not modelled. `SetAirlineFund`
  records the amount in ether.
- Values are not modelled as JavaScript numbers. Indexes, event indexes and
  timestamps are integers. Loose `==` between an assigned index and the
  event's index is modelled as equality of those integers. Floating-point
  rounding of `timestamp * 1000` for huge timestamps is out.
- The DOM code of src/dapp/index.js is not modelled: its handlers, `display`,
  `loadSelect` and `createFlights`.
- Argument mismatches between src/dapp/index.js and the `Contract` wrappers are
  not modelled. For example, `setAirlineFund(addr, value, callback)` is called
  on a two-parameter wrapper. This is wiring, not logic. The fixed amount of
  10 ether is modelled.
- test/flightSurety.js is not modelled. It asserts behaviour of the Solidity
  contracts.
- In `contract.js`, the constructor calls `initialize` before it resets the
  fields. The `getAccounts` callback runs after the constructor returns, so
  `Initialize` is modelled as a separate call on a constructed `Contract`.

## Findings

| source | as written | input that shows it | evidently intended | confidence | as-written member | corrected member |
|---|---|---|---|---|---|---|
| src/dapp/index.js:164-169 | An `if` is followed by an `if/else` that assigns on every path, so the assignment for '1' and '2' is always overwritten. | `getAirlinesAddress('1')` returns `0x2f2899d6…fca7` | `else if`, so that '1' and '2' return `0xcbd22ff1…0024` | medium; not executed | `DappAirlines.GetAirlinesAddressLosesFirst` | `DappAirlines.IntendedAirlinesAddress` |
