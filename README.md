# CoopSave front end: a Dafny model of its client-side rules

CoopSave (the Adashi web client) is a React front end for a savings-group contract on the
Stacks blockchain. It serves three kinds of group:
- rotating groups (ROSCA), where each member in turn receives the whole pot;
- collective savings groups, where members withdraw what they put in;
- interest-bearing groups.

The contract keeps the ledger itself. The client decides what to send to the contract and
what to show. This project models those decisions and proves what they guarantee:

- **`CreateGroupModal`** (`create_group.dfy`): the three-step group-creation wizard. It covers:
  - turning a group name into a contract id, and validating the name;
  - per-step validation, step navigation and the input clamps;
  - unit conversion (STX to microSTX, days to blocks);
  - the choice between a public and a private create request.

  The wizard is a class whose fields are the component's state.
- **`Dashboard`** (`dashboard.dfy`): the signed-in user's groups. It covers:
  - which listed groups are the user's, and how a contract record becomes a display group;
  - the status decoding;
  - which groups have a payout or savings to claim, and the claimable balance;
  - the tab filter and the two counters.

  The fetch's two loops are methods proved against recursive specification functions.
- **`BrowsePage`** (`browse.dfy`): the search, mode and status filter, "Clear All Filters", and which cards offer to join.
- **`AccessFundsModal`** (`access_funds.dfy`): the claim dialog. It covers the total of claimable amounts, which contract call each item makes, and the one-slot `processingId` state that disables the claim buttons.
- **`BlockHeight`** (`block_height.dfy`): the 30-second throttle on chain-height requests (a class), and the blocks-remaining countdown.
- **`Format`** (`format.dfy`): address abbreviation, block counts as readable durations, mode labels and status colours.
- **`ErrorCodes`** (`error_codes.dfy`): the table of contract error codes 300 to 325, with names, messages, message templates and recovery actions.
- **Shared modules:**
  - `Wrappers`: `Option`;
  - `Types`: the `Group` record, the group statuses, and how a wallet call ends;
  - `Text`: ASCII character classes, `toLowerCase`, `trim`, `includes`, `slice`, and `toString(radix)` with its inverse;
  - `Seqs`: `Array.prototype.filter` and order preservation;
  - `Arith`: exact integer division.

Inputs the client gets from outside become parameters:
- the contract reads (the public listing, and the user's member record per group);
- the clock (`Date.now()`);
- the node's answer to a height request;
- how a wallet call ends: finished, cancelled, or thrown.

`STATUS_ENROLLMENT` and `STATUS_ACTIVE` are also parameters. `Dashboard.tsx` imports them, but `useContract.ts` does not define them.

## Model

| member | source | states |
|---|---|---|
| Text.Trim | src/components/modals/CreateGroupModal.tsx:40 | `trim` never lengthens, leaves no whitespace at either end, and keeps only input characters |
| Text.TrimCutsWhitespace | src/components/modals/CreateGroupModal.tsx:58-64 | the trimmed name is a contiguous slice of the input, and everything cut on either side is whitespace |
| Text.Lower | src/components/modals/CreateGroupModal.tsx:41 | `toLowerCase` keeps the length and lower-cases each character |
| Text.LowerIdempotent | src/pages/BrowsePage.tsx:86-87 | lower-casing an already lower-cased query changes nothing |
| Text.ContainsIff | src/pages/BrowsePage.tsx:86-87 | `includes` holds exactly when the needle occurs at some index of the haystack |
| Text.ContainsEmpty | src/pages/BrowsePage.tsx:86 | every string includes the empty string |
| Text.ToRadix | src/components/modals/CreateGroupModal.tsx:102 | `toString(36)` yields at least one digit, each in `[a-z0-9]` |
| Text.RadixRoundTrip | src/components/modals/CreateGroupModal.tsx:102 | reading the base-36 timestamp back gives the timestamp |
| Text.Base36Length | src/components/modals/CreateGroupModal.tsx:102 | a number below 36^k has at most k base-36 digits |
| Text.SliceTo | src/utils/format.ts:11 | `slice(0, n)` is the prefix of length min(n, length) |
| Text.SliceLast | src/utils/format.ts:11 | for n > 0, `slice(-n)` is the suffix of length min(n, length) |
| Seqs.Filter | src/pages/Dashboard.tsx:170-177 | `filter` never lengthens, and keeps x exactly when x is in the list and passes the test |
| Seqs.FilterCounts | src/pages/Dashboard.tsx:170-177 | `filter` keeps every passing value as often as it occurs in the list, and no other value |
| Seqs.FilterAppend | src/pages/BrowsePage.tsx:85 | filtering a concatenation is the concatenation of the filtered parts |
| Seqs.FilterPrefix | src/components/modals/CreateGroupModal.tsx:45 | the filter of a prefix is a prefix of the filter |
| Seqs.FilterFilter | src/components/modals/CreateGroupModal.tsx:42 | filtering by a stricter test after a weaker one is filtering by the stricter test alone |
| Seqs.FilterIsSubsequence | src/pages/BrowsePage.tsx:85 | a filtered list is an order-preserving subsequence of its input |
| Seqs.FilterKeepsAll | src/pages/BrowsePage.tsx:164 | a test every element passes returns the list unchanged |
| Seqs.FilterAgrees | src/pages/BrowsePage.tsx:86-87 | two tests that agree on every element filter alike |
| Seqs.FilterSplitCount | src/pages/Dashboard.tsx:213-214 | filtering by a disjunction of two exclusive tests counts the sum of the two filters |
| Arith.ScaleExact | src/components/modals/CreateGroupModal.tsx:105-108 | scaling by a unit and dividing back is exact with no remainder |
| Format.FormatAddressShape | src/utils/format.ts:9-12 | the abbreviation is empty exactly for the empty address. Otherwise it is the first min(6, n) characters, `...`, then the last min(4, n), at most 13 in all |
| Format.ReadableBuckets | src/utils/format.ts:14-20 | a negative count: floor(blocks/144) days, at most -1. From 0 to below 144 blocks: hours = blocks/6, at most 23. Below 1008: 1 to 6 days. Below 4320: 1 to 4 weeks. From 4320: at least 1 month |
| Format.ReadableIsWholeUnits | src/utils/format.ts:14-20 | the count is the number of whole units in the block count, never over and short by less than one unit, for every block count |
| Format.NestedFloor | src/utils/format.ts:15-19 | the nested floors `floor(floor(b/144)/k)` equal one floor division by 144·k |
| Format.ModeLabel | src/utils/format.ts:22-29 | the label is `Unknown` exactly for modes other than 1, 2, 3 |
| Format.ModeLabelsDistinct | src/utils/format.ts:22-29 | the three known modes have three different labels |
| Format.StatusColor | src/utils/format.ts:31-39 | the colour is one of four, and grey exactly for strings other than enrollment, active and paused |
| Format.StatusColors | src/utils/format.ts:31-39 | enrollment is amber, active green, paused red; completed and withdrawal_open grey |
| CreateGroupModal.DropRun | src/components/modals/CreateGroupModal.tsx:43-44 | skipping a run leaves a suffix that does not start with a run character, and everything skipped is a run character |
| CreateGroupModal.ReplaceRuns | src/components/modals/CreateGroupModal.tsx:43-44 | after `replace(/\s+/g, '-')` or `replace(/-+/g, '-')`: every run character left is `-`, no two run characters are adjacent, and the first character is kept or replaced (that each maximal run becomes exactly one `-` is `CreateGroupModal.ReplaceRunsJoin`) |
| CreateGroupModal.ReplaceRunsKeeps | src/components/modals/CreateGroupModal.tsx:43-44 | run replacement adds no character but `-` |
| CreateGroupModal.DropRunUntouched | src/components/modals/CreateGroupModal.tsx:43-44 | skipping a run loses no character other than run characters and `-` |
| CreateGroupModal.ReplaceRunsUntouched | src/components/modals/CreateGroupModal.tsx:43-44 | run replacement keeps every character other than run characters and `-`, in order, and adds none |
| CreateGroupModal.ReplaceRunsJoin | src/components/modals/CreateGroupModal.tsx:43-44 | a maximal run between text that ends and starts outside the class becomes exactly one `-`: `x + run + y` is replaced as `x`, `-`, `y` |
| CreateGroupModal.ReplaceRunsIdentity | src/components/modals/CreateGroupModal.tsx:43-44 | a string with only lone `-` as run characters is unchanged |
| CreateGroupModal.Sanitize | src/components/modals/CreateGroupModal.tsx:38-46 | the id slug has at most 40 characters, all in `[a-z0-9-]`, and never `--` |
| CreateGroupModal.SanitizeKeepsAlnum | src/components/modals/CreateGroupModal.tsx:38-46 | the slug's letters and digits are a prefix of the lower-cased trimmed name's letters and digits, in order, and all of them when the slug is shorter than 40 |
| CreateGroupModal.SanitizeJoinsWords | src/components/modals/CreateGroupModal.tsx:38-46 | two words of `[a-z0-9]` separated by whitespace become the words joined by one `-`, as in `my group` → `my-group`, when they fit in 40 characters |
| CreateGroupModal.CleanFixesIds | src/components/modals/CreateGroupModal.tsx:39-42 | trim, lower-case and the character filter leave a slug unchanged |
| CreateGroupModal.RunsFixIds | src/components/modals/CreateGroupModal.tsx:43-44 | both run replacements leave a slug without `--` unchanged |
| CreateGroupModal.SanitizeFixesIds | src/components/modals/CreateGroupModal.tsx:38-46 | every slug of at most 40 characters without `--` is its own sanitization |
| CreateGroupModal.SanitizeIdempotent | src/components/modals/CreateGroupModal.tsx:38-46 | sanitizing twice equals sanitizing once |
| CreateGroupModal.MatchesNamePatternIff | src/components/modals/CreateGroupModal.tsx:51 | the pattern matches exactly the non-empty strings of letters, digits, whitespace and `-_.,'!?` |
| CreateGroupModal.ValidGroupNameIff | src/components/modals/CreateGroupModal.tsx:49-53 | a name is valid iff its length is 3 to 100 and every character is allowed |
| CreateGroupModal.CheckName | src/components/modals/CreateGroupModal.tsx:58-66 | the name checks push exactly the errors of the name rules |
| CreateGroupModal.NameErrorRules | src/components/modals/CreateGroupModal.tsx:58-66 | at most one name error. Required iff empty; too short iff 1-2 chars; too long iff over 100; invalid characters iff the length fits but a character is disallowed |
| CreateGroupModal.Step1Errors | src/components/modals/CreateGroupModal.tsx:57-70 | step 1 reports at most two errors, never two name errors. Each name error under exactly its condition; the description error iff the description exceeds 256 characters |
| CreateGroupModal.Step1Passes | src/components/modals/CreateGroupModal.tsx:57-70 | step 1 reports nothing iff the trimmed name is valid and the description has at most 256 characters |
| CreateGroupModal.Step2Passes | src/components/modals/CreateGroupModal.tsx:71-80 | step 2 reports nothing iff 0 < deposit ≤ 10000, 0 < cycle ≤ 365 and 2 ≤ members ≤ 100 |
| CreateGroupModal.OtherStepsPass | src/components/modals/CreateGroupModal.tsx:55-81 | every other step number reports nothing |
| CreateGroupModal.GroupId | src/components/modals/CreateGroupModal.tsx:101-102 | the group id holds only `[a-z0-9-]` |
| CreateGroupModal.GroupIdLength | src/components/modals/CreateGroupModal.tsx:101-102 | with a timestamp below 36^k the id has at most 41 + k characters. For 8 digits that is 49, within the contract's 50 |
| CreateGroupModal.GroupIdTimestamp | src/components/modals/CreateGroupModal.tsx:101-102 | the id is the slug, `-`, then digits that read back to the timestamp |
| CreateGroupModal.OrNull | src/components/modals/CreateGroupModal.tsx:130 | `description \|\| null` is null exactly for the empty description, and otherwise the description |
| CreateGroupModal.RequestUnits | src/components/modals/CreateGroupModal.tsx:104-152 | the deposit is whole STX in microSTX and the cycle whole days in blocks, both exactly recoverable. Only a public request has the 1008-block enrollment and auto-start. Name, members and mode are copied |
| CreateGroupModal.BoundsCarryOver | src/components/modals/CreateGroupModal.tsx:71-77 | a form that passed step 2 yields a request within the contract-unit bounds and with a slug id |
| CreateGroupModal.CreateGroupWizard.constructor | src/components/modals/CreateGroupModal.tsx:22-35 | the wizard starts on step 1, without errors, not submitting, with the default form |
| CreateGroupModal.CreateGroupWizard.CollectStep1Errors | src/components/modals/CreateGroupModal.tsx:57-70 | the step-1 pushes produce exactly the step-1 errors |
| CreateGroupModal.CreateGroupWizard.CollectStep2Errors | src/components/modals/CreateGroupModal.tsx:71-78 | the step-2 pushes produce exactly the step-2 errors, in order |
| CreateGroupModal.CreateGroupWizard.ValidateStep | src/components/modals/CreateGroupModal.tsx:55-81 | stores the step's errors and passes iff there are none; nothing else changes |
| CreateGroupModal.CreateGroupWizard.NextStep | src/components/modals/CreateGroupModal.tsx:83-88 | advances (at most to 3) and clears errors iff the step validates, otherwise shows its errors. The step stays in 1..3 |
| CreateGroupModal.CreateGroupWizard.PrevStep | src/components/modals/CreateGroupModal.tsx:90-93 | goes back one step, never below 1, and clears errors |
| CreateGroupModal.CreateGroupWizard.SetName | src/components/modals/CreateGroupModal.tsx:208 | the name input changes only the name |
| CreateGroupModal.CreateGroupWizard.SetDescription | src/components/modals/CreateGroupModal.tsx:219 | the description input changes only the description |
| CreateGroupModal.CreateGroupWizard.SetPublic | src/components/modals/CreateGroupModal.tsx:226-233 | the visibility cards change only the visibility |
| CreateGroupModal.CreateGroupWizard.SetMode | src/components/modals/CreateGroupModal.tsx:270-277 | the mode cards set the mode to 1 or 2 |
| CreateGroupModal.CreateGroupWizard.SetDeposit | src/components/modals/CreateGroupModal.tsx:295-297 | NaN and negatives become 0; other values are kept |
| CreateGroupModal.CreateGroupWizard.SetCycleDuration | src/components/modals/CreateGroupModal.tsx:312-314 | NaN and values below 1 become 1 |
| CreateGroupModal.CreateGroupWizard.SetMaxMembers | src/components/modals/CreateGroupModal.tsx:332-334 | NaN becomes 2, and everything else is clamped to 2..100 |
| CreateGroupModal.CreateGroupWizard.Submit | src/components/modals/CreateGroupModal.tsx:95-111 | re-validates and, only when clean and not already submitting, starts submitting and returns the built request. From step 3 the request is in bounds |
| CreateGroupModal.CreateGroupWizard.SettleSubmit | src/components/modals/CreateGroupModal.tsx:113-157 | every outcome ends submitting. The modal closes only on finish; a throw shows the failure message |
| Dashboard.DecodeStatus | src/pages/Dashboard.tsx:68-85 | 2, 3, 4 decode to completed, paused, withdrawal_open. Active exactly for the imported active code when it is not one of those |
| Dashboard.DecodeStatusRoundTrip | src/pages/Dashboard.tsx:68-85 | with distinct codes, each status decodes from its own code, and no other code decodes to it (except the enrollment default) |
| Dashboard.UnmappedIsEnrollment | src/pages/Dashboard.tsx:85 | a code outside the map decodes to enrollment |
| Dashboard.ToGroup | src/pages/Dashboard.tsx:76-92 | every field is copied, the status is decoded, and a missing description becomes `''` |
| Dashboard.MemberOf | src/pages/Dashboard.tsx:55-56 | the member lookup returns the record exactly when the user has one |
| Dashboard.MyGroupsMembership | src/pages/Dashboard.tsx:43-95 | a group is shown iff some listing entry with an id is created by the user or has a member record; there are never more shown groups than listing entries |
| Dashboard.MyGroupsAreMine | src/pages/Dashboard.tsx:47-67 | every shown group has an id and is created by the user or has a member record |
| Dashboard.ItemRules | src/pages/Dashboard.tsx:115-145 | at most one item per group and none without a record. Payout iff active ROSCA at the member's position, not withdrawn, not paid; amount members × deposit. Savings iff collective and open for withdrawal, not withdrawn; amount `totalContributed` or 0 |
| Dashboard.ClaimableItemsFacts | src/pages/Dashboard.tsx:107-150 | no more items than groups, each for a listed group with a member record |
| Dashboard.ClaimableTotal | src/pages/Dashboard.tsx:168 | the claimable balance is the sum over groups of what each offers |
| Dashboard.GroupClaimAmount | src/pages/Dashboard.tsx:115-145 | a group offers the full pot (members × deposit) for a due ROSCA payout, the member's `totalContributed` (or 0) for an open collective withdrawal, and nothing otherwise |
| Dashboard.TabFilter | src/pages/Dashboard.tsx:170-177 | a tab keeps exactly the groups of its status, in order; an unknown tab keeps all |
| Dashboard.CountersAgree | src/pages/Dashboard.tsx:213-214 | active groups = active + enrolling, so pending actions never exceed it |
| Dashboard.CollectMyGroups | src/pages/Dashboard.tsx:40-95 | the first loop yields exactly the user's groups, in listing order, and caches only records the contract returned |
| Dashboard.CachedMember | src/pages/Dashboard.tsx:110-113 | the cached lookup with its fallback always yields the contract's record |
| Dashboard.PushItems | src/pages/Dashboard.tsx:115-145 | one group's pushes append exactly that group's items |
| Dashboard.CollectItems | src/pages/Dashboard.tsx:105-150 | the second loop yields exactly the claimable items of the user's groups, in order |
| Dashboard.FetchMyGroups | src/pages/Dashboard.tsx:30-150 | without a user nothing is stored; otherwise the user's groups and exactly their claimable items |
| BrowsePage.FilteredExactly | src/pages/BrowsePage.tsx:84-91 | a group is shown iff it is listed and matches the query, the chosen mode and the chosen status. The result keeps list order |
| BrowsePage.EmptyQueryMatches | src/pages/BrowsePage.tsx:86-87 | the empty query matches every group |
| BrowsePage.SearchIgnoresCase | src/pages/BrowsePage.tsx:86-87 | queries equal up to case show the same groups |
| BrowsePage.NarrowingShrinks | src/pages/BrowsePage.tsx:88-89 | choosing a mode or status instead of `all` only removes groups |
| BrowsePage.ClearAllShowsAll | src/pages/BrowsePage.tsx:164 | after Clear All the full list is shown, unchanged |
| BrowsePage.StatusChipsAndJoin | src/pages/BrowsePage.tsx:178 | under the Enrollment chip every card can be joined, and under Active or Completed none can |
| AccessFundsModal.TotalAvailable | src/components/modals/AccessFundsModal.tsx:79 | the total of no items is 0 and of one item its amount. With non-negative amounts it is non-negative and at least every amount |
| AccessFundsModal.TotalIsSum | src/components/modals/AccessFundsModal.tsx:79 | the left-fold total equals the plain sum of the item amounts |
| AccessFundsModal.TotalAppend | src/components/modals/AccessFundsModal.tsx:79 | the total of two lists joined is the sum of their totals |
| AccessFundsModal.Dispatch | src/components/modals/AccessFundsModal.tsx:30-66 | a payout calls `claimPayout`, anything else `withdrawSavings`, on the item's group |
| AccessFundsModal.FeedbackRules | src/components/modals/AccessFundsModal.tsx:33-75 | success only on finish. A cancel shows the item kind's failure toast and a throw the generic toast, all for 5000 ms |
| AccessFundsModal.ClaimDialog.constructor | src/components/modals/AccessFundsModal.tsx:24 | no claim is processing at first |
| AccessFundsModal.ClaimDialog.Click | src/components/modals/AccessFundsModal.tsx:26-32 | with enabled buttons, marks the item's group as processing and returns its call; with disabled buttons, nothing happens |
| AccessFundsModal.ClaimDialog.Settle | src/components/modals/AccessFundsModal.tsx:33-75 | every outcome resets `processingId` and re-enables the buttons, and returns the outcome's feedback |
| AccessFundsModal.OpenClaimDisables | src/components/modals/AccessFundsModal.tsx:120 | while a claim on a group with an id is open, the buttons are disabled |
| BlockHeight.ForwardClockSpaces | src/hooks/useBlockHeight.ts:12-22 | if the clock never stepped back during a successful request, the recorded success times are each at least 30 s after the previous one |
| BlockHeight.SpacedApart | src/hooks/useBlockHeight.ts:12-22 | successes each spaced 30 s from the previous are 30 s × k apart when k places apart |
| BlockHeight.BlockHeightTracker.constructor | src/hooks/useBlockHeight.ts:5-7 | no height, loading, last fetch 0 |
| BlockHeight.BlockHeightTracker.Fetch | src/hooks/useBlockHeight.ts:10-28 | within 30 s of the last success nothing changes. Otherwise loading ends; only a success records the height and time. Every successful request started at least 30 s after the previous success was recorded |
| BlockHeight.BlocksRemaining | src/hooks/useBlockHeight.ts:41-50 | null iff loading or height or target missing or 0. Otherwise never negative, 0 iff the height has reached the target, and height + remaining = target before it |
| BlockHeight.RemainingMonotone | src/hooks/useBlockHeight.ts:48-49 | a higher chain height never leaves more blocks to wait |
| ErrorCodes.DecodeName | src/constants/error-codes.ts:1-171 | a code has an entry iff it is in 300..325, and the entry's number is the code |
| ErrorCodes.Decode | src/constants/error-codes.ts:1-171 | the table is defined for exactly 300..325, without gaps |
| ErrorCodes.NameRoundTrip | src/constants/error-codes.ts:3-170 | every named error's number is in range and decodes back to it |
| ErrorCodes.CodeRoundTrip | src/constants/error-codes.ts:3-170 | each entry's `code` string reads back to its number |
| ErrorCodes.DecodeInjective | src/constants/error-codes.ts:3-170 | two codes with the same `code` string are the same code |
| ErrorCodes.CodesArePrefixed | src/constants/error-codes.ts:3-170 | every `code` begins with `ERR_` |
| ErrorCodes.KnownEntries | src/constants/error-codes.ts:61-86 | 305 is `ERR_MAX_MEMBERS` with its message, template and `find_another_group`; 309 is `ERR_ALREADY_PAID` with `view_contribution` |
| ErrorCodes.PlaceholderCodes | src/constants/error-codes.ts:1-171 | a user message has parameters iff its code is 301, 305, 313 or 319 |

## Left out

- `formatSTX`, the balance's division by 1,000,000 for display, and `toLocaleString`: floating point and locale formatting have no counterpart here.
- `parseFloat` on the deposit input: the deposit is an integer, and `SetDeposit` receives the parsed value (or `None` for NaN).
- Network, wallet and clock calls (`getPublicGroupCount`, `getPublicGroupByIndex`, `getGroupMember`, `claimPayout`, `withdrawSavings`, `createPublicGroup`, `createPrivateGroup`, `fetch`, `Date.now`): these are inputs or outcomes. `src/hooks/useContract.ts` does not define most of them, and its wallet code is not part of this model.
- The asynchrony of the wallet calls: each async handler is split into a call that starts it (`Click`, `Submit`) and one that settles it (`Settle`, `SettleSubmit`); interleavings between them are not modelled.
- `setInterval` in `useBlockHeight` and overlapping fetches: each `Fetch` runs to completion before the next begins.
- Dashboard fetch failures: a throw from `getPublicGroupCount` or `getPublicGroupByIndex` aborts the whole fetch and stores nothing; this path is not modelled. A throw from a member lookup behaves like a missing record and is modelled as one.
- The member lookup answers the same way in both loops of `fetchMyGroups`, since the contract reads are one fixed map.
- `AccessFundsModal.ClaimDialog.Click`: the dialog tracks one call in flight. When a group's id is empty, `!!processingId` is false and the buttons stay enabled; a second click then replaces the tracked call.
- The step-1 name and description error messages say "less than 100/256 characters". The code accepts exactly 100 and 256, and the model follows the code.
- The name sent to the contract is the untrimmed form field, as in the code.
- Toasts, rendering, the modals' open/close flags, and `onSuccess`/`onClose` beyond the returned outcome.
- `src/pages/CreateGroup.tsx` and `src/pages/GroupDetails.tsx` are not part of this model. Neither are the contract's own rules (join, deposit, claim, withdraw, vote); only their error codes appear.
- Unicode: `\s`, `trim` and `toLowerCase` use ASCII only (space, tab, line feed, vertical tab, form feed and carriage return, and the letters A–Z).
- `CreateGroupModal.Step1Errors`, `CreateGroupModal.Step1Passes` and `CreateGroupModal.ValidGroupNameIff`: the name and description lengths count characters, whereas JavaScript's `.length` counts UTF-16 code units. The two agree for every character below U+10000. A character above U+FFFF counts once here but twice in the source, so a name or description made of such characters can pass here and fail in the source.
- `BlockHeight.BlockHeightTracker.Fetch`: the two `Date.now()` readings are independent inputs, so the wall clock may step back between them. The throttle alone only ensures that each successful request starts 30 s after the previous success was recorded. The recorded success times are 30 s apart only when the clock does not step back during a request (`BlockHeight.ForwardClockSpaces`).
- The browse page's group list is a parameter, not the fixed demo list in the source.
- `Text.Trim`: its own contract covers only the ends and the character set. Only whitespace being cut is stated separately, in `Text.TrimCutsWhitespace`.
