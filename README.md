# Callsign allocator and roster workflows, in Dafny

This project models the roster panel of an emergency-services roleplay
organisation. It covers three parts:

- The rank model and the callsign allocator of `lib/callsign.ts`. There are
  eight ranks in a fixed seniority order (`RANK_ORDER`). Each rank owns a band
  of callsign numbers (`RANK_RANGES`). A callsign is a number written as
  three zero-padded digits. `getNextAvailableCallsign` hands out the lowest
  number of a band that no member of that rank holds.
- The three admin routes that change the roster: recruit, rank change and
  dismiss. Each one works on the member table and the append-only action
  log.
- The list logic of the two directory pages: search, rank filter, and the
  sort by rank and then callsign. The admin page also offers promotion and
  demotion targets.

Files and modules:

| file | module | what it holds |
|---|---|---|
| `wrappers.dfy` | `Wrappers` | `Option` |
| `ranks.dfy` | `Ranks` | ranks, seniority index, bands, `isManagement`, `canPromoteTo`, `canDemoteTo` |
| `callsigns.dfy` | `Callsigns` | `formatCallsign`, `parseCallsign`, the lowest-free-number specification and the allocation loop |
| `roster.dfy` | `Roster` | member and log records, and each route as a step function from the old table and log to an answer and the new table and log, with lemmas about them |
| `admin_routes.dfy` | `AdminRoutes` | class `RosterStore`: the member table and log as fields, and the three routes as methods that update them in place |
| `text.dfy` | `Text` | `toLowerCase` (ASCII) and `includes` |
| `sorting.dfy` | `Sorting` | `filter`, and `sort` as a stable insertion sort, both as functions and done in place on an array |
| `listing.dfy` | `Listing` | the comparator both pages pass to `sort`, and the order it produces |
| `members_page.dfy` | `MembersPage` | `filterMembers` of the members page |
| `admin_page.dfy` | `AdminPage` | the management flag, `filteredMembers`, `getAvailablePromotions`, `getAvailableDemotions` |

Modelling choices:

- The Prisma store is a map from member id to member record. It also holds
  the next autoincrement id and the action log as a sequence.
  `findMany({where: {rank}})` followed by `parseCallsign` becomes
  `UsedNumbers(members, rank)`: the parsed callsigns of the members of that
  rank.
- A route's answer is a `Response` value. It is one of the success values or
  one of `Unauthorized` (401), `Forbidden` (403), `BadRequest` (400),
  `NotFound` (404) and `ServerError` (500). `ServerError` is the route's
  catch-all handler. The allocator's "no available callsigns" error lands
  there, and so does an unknown rank name in a rank-change request.
- The session carries the rank as the string stored at sign-in
  (`lib/auth.ts:84`). The routes' `as Rank` is a compile-time cast, so
  `isManagement` compares that string with the two management names
  (`IsManagementName`). A string that is no rank name is not management.
- `RankFromName` is the model's own name lookup. It maps an enum name to its
  rank and any other string to `None`. The source performs no lookup: the
  rank-change route passes the raw string on. An unknown name then fails in
  Prisma's enum check or where `RANK_RANGES[rank]` is undefined, and the
  catch answers 500. The model answers `ServerError` for `None`.
- A missing or empty request field is the empty string. A member id is
  `Option<int>`, and `Some(0)` is rejected too, because `!memberId` treats 0
  as missing.
- `parseInt(s, 10)` is the value of the leading run of decimal digits. If
  there is no leading digit, the result is `None` (NaN).
- JavaScript's `sort` is stable, so the sort is a stable insertion sort under
  the page comparator. A comparator result of NaN counts as 0.
- The rank-change route accepts any target rank. It never calls
  `canPromoteTo` or `canDemoteTo`, and a change to the current rank is
  accepted. An exhausted band gives the route's 500 answer.

## Model

| member | source | states |
|---|---|---|
| `Ranks.Index` | lib/callsign.ts:26-35 | `RANK_ORDER.indexOf(r)` is a position in the eight-rank order (the constant `Ranks.RankOrder`) that holds r |
| `Ranks.RankName` | lib/callsign.ts:4-13 | each rank's Prisma enum name is a non-empty string of capitals and underscores |
| `Ranks.RankOrderDistinct` | lib/callsign.ts:26-35 | no rank occurs twice in `RANK_ORDER`, so the index is unique |
| `Ranks.RankOrderComplete` | lib/callsign.ts:26-35 | every rank occurs in `RANK_ORDER`, which splits at its index into the ranks before it, the rank, and the ranks after it |
| `Ranks.RankFromName` | app/api/admin/rank-change/route.ts:43-48 | the model's name lookup: an enum name gives its rank, and any other string gives none. It stands for the enum mapping and for the failure path that the erased `as Rank` cast leaves to Prisma and `RANK_RANGES` |
| `Ranks.RankNameRoundTrip` | app/api/admin/rank-change/route.ts:43-48 | a rank's enum name reads back as that rank |
| `Ranks.Band` | lib/callsign.ts:4-13 | every band is a non-empty interval inside 1..599 |
| `Ranks.BandHoldsTwo` | lib/callsign.ts:4-13 | every band holds at least two numbers |
| `Ranks.BandsAscend` | lib/callsign.ts:4-13 | a more senior rank's band lies wholly below a less senior rank's band |
| `Ranks.BandsContiguous` | lib/callsign.ts:4-13 | consecutive ranks' bands touch with no gap, running from 1 to 599 |
| `Ranks.BandsDisjoint` | lib/callsign.ts:4-13 | a number in two ranks' bands means the ranks are the same |
| `Ranks.RankOfNumber` | lib/callsign.ts:4-13 | each number in 1..599 lies in the band of the rank found, and numbers outside 1..599 have no rank |
| `Ranks.BandsPartitionNumbers` | lib/callsign.ts:4-13 | every number in 1..599 lies in exactly one rank's band |
| `Ranks.IsManagement` | lib/callsign.ts:70-72 | a rank is management iff it is one of the two most senior ranks |
| `Ranks.IsManagementName` | app/api/admin/recruit/route.ts:16 | on the session's rank string, management iff the string is `DIRECTOR_GENERAL` or `DIRECTOR_ADJUNCT` |
| `Ranks.CanPromoteTo` | lib/callsign.ts:74-78 | promotion to a target is allowed iff the target comes before the current rank in `RANK_ORDER` |
| `Ranks.CanDemoteTo` | lib/callsign.ts:80-84 | demotion to a target is allowed iff the target comes after the current rank in `RANK_ORDER` |
| `Ranks.PromoteDemoteTrichotomy` | lib/callsign.ts:74-84 | `canPromoteTo` and `canDemoteTo` are never both true, both are false exactly for the same rank, and promoting a to b is demoting b to a |
| `Callsigns.DigitChar` | lib/callsign.ts:37-39 | a digit value below 10 becomes a decimal digit character |
| `Callsigns.DecimalString` | lib/callsign.ts:37-39 | `toString()` of a natural number is a non-empty digit string whose value is the number |
| `Callsigns.PadStart` | lib/callsign.ts:37-39 | `padStart` gives the longer of the string and the width, with the string at the end and fill characters before it |
| `Callsigns.FormatCallsign` | lib/callsign.ts:37-39 | a callsign is a digit string of at least three characters whose value is the number |
| `Callsigns.DigitPrefix` | lib/callsign.ts:41-43 | the leading digits that `parseInt` reads are a digit prefix of the string, followed by a non-digit or the end |
| `Callsigns.ParseCallsign` | lib/callsign.ts:41-43 | `parseInt` is NaN exactly when the string is empty or does not start with a digit |
| `Callsigns.ParseFormatRoundTrip` | lib/callsign.ts:37-43 | parsing a formatted callsign gives back its number, leading zeros included |
| `Callsigns.FormatInjective` | lib/callsign.ts:37-39 | distinct numbers format to distinct callsigns |
| `Callsigns.FormatThreeDigits` | lib/callsign.ts:37-39 | for 0..999 the callsign is exactly three characters: hundreds, tens and units digit |
| `Callsigns.FormatExamples` | lib/callsign.ts:37-39 | 6 formats as "006" and 500 as "500" |
| `Callsigns.LowestFree` | lib/callsign.ts:61-67 | the result lies in the interval, is unused, and every smaller number of the interval is used; none iff every number of the interval is used |
| `Callsigns.BandFull` | lib/callsign.ts:61-67 | the band is full, so the allocator throws, iff no number of the band is outside the used set |
| `Callsigns.Allocate` | lib/callsign.ts:45-68 | allocation fails iff the band is full; otherwise it is the callsign of an unused number of the band below which every band number is used |
| `Callsigns.NextAvailableCallsign` | lib/callsign.ts:45-68 | the upward scan with early return and final throw computes exactly `Allocate` of the rank and its used set |
| `Callsigns.AllocateIsLowestFree` | lib/callsign.ts:61-65 | any unused band number with every lower band number used is the one allocated |
| `Callsigns.AllocateFromEmptyBand` | lib/callsign.ts:61-65 | an empty band allocates its lowest number first and the next number after that |
| `Roster.UsedNumbers` | lib/callsign.ts:48-59 | the used set holds the parsed callsign of every member of the rank whose callsign parses, and nothing else |
| `Roster.MissingId` | app/api/admin/rank-change/route.ts:23 | `!memberId` is true exactly for an absent id and for 0 |
| `Roster.IdentityTaken` | app/api/admin/recruit/route.ts:30-36 | the duplicate check finds a member iff the CNP is among the members' CNPs or the Discord id among their Discord ids |
| `Roster.AuthFailure` | app/api/admin/recruit/route.ts:10-18 | the routes pass the guard iff a session exists with a management rank name; otherwise 401 without a session, else 403 |
| `Roster.RecruitStep` | app/api/admin/recruit/route.ts:8-76 | every answer other than success leaves the table, the id counter and the log unchanged |
| `Roster.RecruitOutcomes` | app/api/admin/recruit/route.ts:12-43 | 401 iff no session; 403 iff a non-management session; 400 iff authorised and a field is empty or the CNP or Discord id is taken; 500 iff otherwise the STAGIAR band is full; never a rank-change, dismiss or 404 answer |
| `Roster.RecruitSuccess` | app/api/admin/recruit/route.ts:43-63 | on success the new member is a STAGIAR with the next id, the request's fields and the allocated callsign; the table gains exactly that row; one RECRUIT entry with newRank STAGIAR is appended |
| `Roster.RecruitKeepsWellKeyed` | app/api/admin/recruit/route.ts:45-54 | recruiting keeps ids positive, below the counter and matching their rows, and the new id was not in use |
| `Roster.RecruitStepSucceeds` | app/api/admin/recruit/route.ts:43-63 | an authorised, complete, unduplicated request with a free STAGIAR number succeeds with that row and log entry |
| `Roster.RankChangeStep` | app/api/admin/rank-change/route.ts:8-75 | every answer other than success leaves the table, the id counter and the log unchanged |
| `Roster.RankChangeOutcomes` | app/api/admin/rank-change/route.ts:12-51 | 401, 403, 400 for a missing id or rank, 404 for an unknown member, 500 for an unknown rank name or a full target band, each exactly under its condition; success exactly when none of these applies; no other answer |
| `Roster.RankChangeSuccess` | app/api/admin/rank-change/route.ts:41-62 | on success the member keeps id and details and takes the new rank with the callsign allocated from the table before the update; no other row changes; one RANK_CHANGE entry records the old and new rank |
| `Roster.RankChangeKeepsWellKeyed` | app/api/admin/rank-change/route.ts:45-51 | a rank change keeps the table well keyed |
| `Roster.DismissStep` | app/api/admin/dismiss/route.ts:8-65 | every answer other than success leaves the table, the id counter and the log unchanged |
| `Roster.DismissOutcomes` | app/api/admin/dismiss/route.ts:12-39 | 401, 403, 400 for a missing id or empty reason, 404 for an unknown member, each exactly under its condition; no other failure |
| `Roster.DismissSuccess` | app/api/admin/dismiss/route.ts:41-53 | on success exactly the member's row is deleted and one DISMISS entry is appended with the reason and the member's rank at dismissal |
| `Roster.DismissKeepsWellKeyed` | app/api/admin/dismiss/route.ts:51-53 | a dismissal keeps the table well keyed |
| `Roster.FreshCallsignUnheld` | lib/callsign.ts:57-65 | the callsign of a number outside the used set is held by no member of that rank |
| `Roster.PutKeepsCallsignInvariants` | lib/callsign.ts:57-65 | storing a row whose callsign is an unused number of its band keeps callsigns unique per rank and inside their bands |
| `Roster.RecruitKeepsCallsignInvariants` | app/api/admin/recruit/route.ts:43-54 | recruiting keeps callsigns unique per rank and inside their bands |
| `Roster.RankChangeKeepsCallsignInvariants` | app/api/admin/rank-change/route.ts:43-51 | a rank change keeps callsigns unique per rank and inside their bands |
| `Roster.DismissKeepsCallsignInvariants` | app/api/admin/dismiss/route.ts:51-53 | a dismissal keeps callsigns unique per rank and inside their bands |
| `Roster.CallsignInvariantsGiveDistinctNumbers` | lib/callsign.ts:57-59 | under those invariants, members of one rank also differ in their parsed numbers |
| `Roster.UsedAfterRemove` | lib/callsign.ts:48-59 | deleting a row takes exactly its number out of its rank's used set |
| `Roster.UsedAfterPut` | lib/callsign.ts:48-59 | overwriting a row changes the used set by the old row's removal and the new row's number |
| `Roster.DismissFreesCallsign` | app/api/admin/dismiss/route.ts:51-53 | after a dismissal the member's number is free in its rank and every used set is otherwise unchanged |
| `Roster.MoveShiftsNumber` | app/api/admin/rank-change/route.ts:45-51 | moving a row to another rank removes its old number from the old rank and adds its new number to the new rank |
| `Roster.RankChangeMovesNumber` | app/api/admin/rank-change/route.ts:41-51 | after a change to another rank the old number is free in the old rank, and the new rank's used set gains exactly the new number |
| `Roster.SameRankChangeMovesCallsign` | app/api/admin/rank-change/route.ts:41-51 | a "change" to the current rank still allocates, so the member receives a different callsign |
| `Roster.DismissThenRecruitReusesCallsign` | app/api/admin/dismiss/route.ts:51-53 | when every lower STAGIAR number is taken, the recruit after a STAGIAR dismissal receives the dismissed member's callsign |
| `Roster.RemovedNumberIsLowestFree` | lib/callsign.ts:61-65 | removing a member whose lower band numbers are all used makes its number the lowest free one of its rank |
| `Roster.RecruitSucceedsWithLowestFree` | app/api/admin/recruit/route.ts:43-54 | an authorised, complete, unduplicated recruit receives the callsign of the lowest free STAGIAR number |
| `Roster.FirstRecruitGetsLowest` | app/api/admin/recruit/route.ts:43-54 | with no STAGIAR member, a successful recruit receives 500's callsign, and 500 is then the only STAGIAR number in use |
| `Roster.OnlyMemberOfRank` | lib/callsign.ts:48-59 | a row stored into a table with nobody of its rank is that rank's only used number |
| `Roster.FullBandRejectsRankChange` | app/api/admin/rank-change/route.ts:43-51 | when every number of the target band is held in that rank, a change into it answers 500 and changes nothing |
| `AdminRoutes.RosterStore.constructor` | app/api/admin/recruit/route.ts:45-54 | the initial store, before any `member.create`: no members, the id counter at 1, an empty log, and both table invariants hold |
| `AdminRoutes.RosterStore.Recruit` | app/api/admin/recruit/route.ts:8-76 | the in-place recruit gives the answer and new state of `RecruitStep`, and it keeps the table invariants |
| `AdminRoutes.RosterStore.ChangeRank` | app/api/admin/rank-change/route.ts:8-75 | the in-place rank change gives the answer and new state of `RankChangeStep`, and it keeps the table invariants |
| `AdminRoutes.RosterStore.Dismiss` | app/api/admin/dismiss/route.ts:8-65 | the in-place dismissal, which logs before it deletes, gives the answer and new state of `DismissStep`, and it keeps the table invariants |
| `Text.LowerChar` | app/members/page.tsx:49 | lower-casing turns a capital ASCII letter into the same letter in lower case and changes no other character |
| `Text.ToLowerEqualIgnoringCase` | app/members/page.tsx:49-50 | two strings lower-case to the same string iff they have the same length and agree character by character up to ASCII case |
| `Text.ToLower` | app/members/page.tsx:49-50 | `toLowerCase` keeps the length and lower-cases each character |
| `Text.ToLowerIdempotent` | app/members/page.tsx:49-50 | lower-casing twice is lower-casing once |
| `Text.Includes` | app/members/page.tsx:50 | `includes` is true iff the search occurs at some position |
| `Text.IncludesBasics` | app/members/page.tsx:50 | every string includes itself and the empty string, and nothing longer than itself |
| `Sorting.Filter` | app/members/page.tsx:50-54 | `filter` never lengthens the list; which elements it keeps and in which order is stated by `FilterIsSubsequence` and `FilterCounts` |
| `Sorting.KeptPositions` | app/members/page.tsx:50-54 | the positions whose element satisfies the predicate, each once, in increasing order |
| `Sorting.FilterIsSubsequence` | app/members/page.tsx:50-54 | `filter` returns the input read at exactly those positions, so the kept elements stay in their input order |
| `Sorting.FilterCounts` | app/members/page.tsx:50-54 | `filter` keeps each element satisfying the predicate as often as it occurs, and drops every other one |
| `Sorting.FilterKeeps` | app/members/page.tsx:50-54 | every element `filter` keeps comes from the input and satisfies the predicate |
| `Sorting.FilterAll` | app/members/page.tsx:47-54 | a predicate true of every element leaves the list unchanged |
| `Sorting.FilterFilter` | app/members/page.tsx:48-54 | the search filter followed by the rank filter is one filter by both conditions |
| `Sorting.InsertBy` | app/members/page.tsx:55-60 | one insertion step of the stable sort adds exactly one element |
| `Sorting.SortBy` | app/members/page.tsx:55-60 | `sort` keeps the length; its order and contents are stated by the lemmas below |
| `Sorting.InsertByPermutes` | app/members/page.tsx:55-60 | insertion adds exactly the inserted element |
| `Sorting.SortByPermutes` | app/members/page.tsx:55-60 | the sort's result is a permutation of its input |
| `Sorting.InsertKeepsSorted` | app/members/page.tsx:55-60 | inserting into a sorted list keeps it sorted when the comparator is a preorder on its elements |
| `Sorting.SortBySorted` | app/members/page.tsx:55-60 | the sort's result is ascending under any comparator that is a preorder on its elements |
| `Sorting.SortedUnchanged` | app/members/page.tsx:55-60 | sorting a list that is already in order changes nothing |
| `Sorting.InsertByStable` | app/members/page.tsx:55-60 | an insertion keeps the selected elements in order and puts a selected x behind them, when no selected element compares greater than x |
| `Sorting.SortByStable` | app/members/page.tsx:55-60 | the sort is stable: selected elements that all tie with one another come out in their input order |
| `Sorting.TiedWith` | app/members/page.tsx:55-60 | the elements equivalent to y: neither compares greater than the other |
| `Sorting.SortByKeepsTiesInOrder` | app/members/page.tsx:55-60 | under a preorder, the elements tied with any y leave the sort in their input order |
| `Sorting.InsertInPlace` | app/members/page.tsx:55-60 | the in-place shift of one element gives the value-level insertion and leaves the rest of the array alone |
| `Sorting.SortInPlace` | app/members/page.tsx:55-60 | sorting the array in place leaves exactly the value-level stable sort of its old contents |
| `Listing.Compare` | app/members/page.tsx:55-60 | a more senior rank compares first, a less senior rank last; within a rank, parsed callsigns compare by their difference |
| `Listing.CompareFlips` | app/members/page.tsx:55-60 | swapping the arguments flips the comparator's sign |
| `Listing.CompareIsLexicographic` | app/members/page.tsx:55-60 | for parsable callsigns, "a before b" means a lower rank index, or the same rank and a number no larger |
| `Listing.UnparsedBreaksTransitivity` | app/members/page.tsx:59 | a callsign that parses to NaN ties with everyone of its rank, so the comparator is then no preorder |
| `Listing.ComparePreorder` | app/members/page.tsx:55-60 | on members with parsable callsigns the comparator is total and transitive |
| `Listing.SortMembers` | app/members/page.tsx:55-60 | the shown order is a permutation of the list, ascending by the comparator when every callsign parses |
| `Listing.SortMembersOrder` | app/members/page.tsx:55-60 | in the shown order an earlier member has a lower rank index, or the same rank and a callsign number no larger |
| `Listing.SortMembersStable` | app/members/page.tsx:55-60 | when every callsign parses, members with the same rank and callsign number as y are shown in the order they were fetched |
| `Listing.SortMembersIdempotent` | app/members/page.tsx:55-60 | re-sorting the shown list changes nothing |
| `MembersPage.MatchesSearch` | app/members/page.tsx:48-51 | the lower-cased search occurs in the lower-cased name, or the search as typed occurs in the callsign or the phone number |
| `MembersPage.MatchesRank` | app/members/page.tsx:52-53 | the rank selector keeps a member iff it is "ALL" or the member's rank |
| `MembersPage.ShownBy` | app/members/page.tsx:48-54 | the page lists a member iff the search is empty or matches it, and the rank selector is "ALL" or its rank |
| `MembersPage.FilterMembers` | app/members/page.tsx:46-62 | the copy, the two filters and the in-place sort produce the stable sort of the members the page shows |
| `MembersPage.ShownFacts` | app/members/page.tsx:47-60 | the list holds each shown member as often as fetched and nothing else; each entry matches the search and the rank selector; it is sorted by rank then callsign when every callsign parses |
| `MembersPage.FilteredParse` | app/members/page.tsx:47-54 | filtering keeps only fetched members, so callsigns that parsed still parse |
| `MembersPage.ShowsEveryone` | app/members/page.tsx:47-54 | with an empty search and "ALL", the filters keep the whole list |
| `AdminPage.IsManagementView` | app/admin/page.tsx:39 | the page's flag is true iff the session rank names a management rank |
| `AdminPage.ViewAgreesWithRoutes` | app/admin/page.tsx:39 | the page's flag is true exactly for the sessions the admin routes let through |
| `AdminPage.MatchesSearch` | app/admin/page.tsx:69-73 | the lower-cased search occurs in the lower-cased name, or the search as typed occurs in the callsign or the Discord id |
| `AdminPage.KeptBy` | app/admin/page.tsx:69-73 | the filter callback keeps a member iff the search is empty or matches it |
| `AdminPage.FilteredMembers` | app/admin/page.tsx:68-79 | the table keeps each member matching the search as often as fetched, and no other member; it is sorted by rank then callsign when every callsign parses |
| `AdminPage.EmptySearchListsEveryone` | app/admin/page.tsx:68-79 | with an empty search the table is the whole list, sorted |
| `AdminPage.AvailablePromotions` | app/admin/page.tsx:91-94 | the offered promotions are exactly the ranks `canPromoteTo` allows, in `RANK_ORDER` order |
| `AdminPage.AvailableDemotions` | app/admin/page.tsx:96-99 | the offered demotions are exactly the ranks `canDemoteTo` allows, in `RANK_ORDER` order |
| `AdminPage.TargetsPartitionRankOrder` | app/admin/page.tsx:91-99 | promotions, then the rank itself, then demotions make up `RANK_ORDER` |
| `AdminPage.ActionButtons` | app/admin/page.tsx:222-223 | the promote button is hidden only for DIRECTOR_GENERAL and the demote button only for STAGIAR |

## Left out

- Authentication (`lib/auth.ts`): the Discord OAuth flow, the JWT and session callbacks and the avatar sync are foreign library calls and network I/O. Only "no session" and the session's rank string and member id are modelled.
- Prisma persistence: the store is an in-memory map. SQL ordering, database enum ordering and the autoincrement mechanism beyond a counter are not modelled.
- Concurrency: each route is one atomic step. The race between reading the used callsigns and writing the member across concurrent requests is not modelled, and the source has no locking.
- Rendering and React state: JSX, hooks, timers, `fetch`, notifications, modals, `getRankClass`, `RANK_LABELS` and the pages that only render are not modelled.
- Build and setup scripts and the style configuration are not modelled.
- Message texts and HTTP status numbers are not modelled. A `Response` constructor stands for each status.
- `Text.ToLower`: `toLowerCase` is modelled as an ASCII case fold. Unicode case mapping is not modelled.
- `Callsigns.ParseCallsign`: `parseInt(s, 10)` is modelled for strings that start with a digit. Leading whitespace and a sign are not modelled.
- `Listing.Compare`: both pages call `parseInt` without a radix, and JavaScript then reads a "0x"-prefixed string as hexadecimal ("0x1F" gives 31). The comparator uses the decimal `ParseCallsign` and reads such a string as 0. Callsigns made by `formatCallsign` never carry that prefix.
- `Callsigns.FormatCallsign`: negative and fractional numbers are not modelled, because callsign numbers are positive integers.
- Request-body parsing is not modelled. A malformed JSON body makes `request.json()` throw, which gives the 500 answer. A field of the wrong JSON type is not modelled either: each field is a string, or an optional integer for member ids.
- `MembersPage.FilterMembers`: the fetched list is passed as an immutable sequence, so "the input is not mutated" holds by construction and has no separate clause.
- `Listing.SortMembers`: sortedness is stated only when every callsign parses. With a NaN callsign the comparator is no preorder (`Listing.UnparsedBreaksTransitivity`), and `Array.prototype.sort` then leaves the order implementation-defined. The model uses the stable insertion order in that case.
