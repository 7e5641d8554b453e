# Verification model of the Obur backend

Obur is a social venue-diary service: accounts follow and block each other, check in at
venues, keep ordered lists, like and bookmark. Its guarantees are spread over Python
services, row-level security policies in PostgreSQL, foreign keys, a Redis rate limiter and
a per-transaction identity setting. This project models those parts together and proves
what they promise in combination.

`dafny verify dfyconfig.toml` checks the whole project.

## Layout

| files | what they hold |
|---|---|
| `Schema`, `Wrappers`, `ThreeValued` | the tables as one immutable state `Db`, its constraints, and SQL's three-valued logic |
| `Policies`, `Authz` | the final row-level policies as SQL evaluates them; the Python rules beside them |
| `Filtering` | what a query's `WHERE`, `ORDER BY`, `LIMIT` and `OFFSET` leave of its rows |
| `Content`, `Social`, `ListItems`, `Accounts`, `Venues` | each service call as a function from state to outcome: raised, unchanged or committed |
| `Requests` | the application as a state machine: sign-in gate, one call per request, session closed |
| `Sessions`, `SocialServices`, `ContentServices`, `AccountServices`, `Application` | the same calls as the code performs them, statement by statement on a session with a committed and a working view. Every statement meets the table's policies and keys; each service is proved to do what its function says, so no write that passes a Python gate is dropped by a policy; `Application.Server` serves whole requests |
| `PolicyRules`, `SocialRules`, `ContentRules`, `AccountRules`, `VenueRules` | call by call, the exact answer and the exact rows left behind, in terms a caller can check beforehand and without naming the function that computes them |
| `Invariants`, `Blocking`, `Histories`, `AccountDeletion`, `Listings`, `HiddenRows`, `ListEditing`, `Witnesses` | what is proved over every run, and across calls |
| `FractionalKeys`, `Ordering` | position keys and `ORDER BY position` |
| `RateLimiter`, `RouteMatch`, `RouterPrefix`, `Text` | the limiter, route templates, log templates, string splitting |
| `CategoryTree`, `RlsIdentity`, `AcceptLanguage`, `ClientIp` | the category tree, the identity protocol, the two header parsers |

A few small lemmas only serve a larger one and carry no row below: `Blocking.BlockSevers`,
`Histories.SuspendedCannotWrite`, `RouteMatch.PatternMatchIsAgreement`,
`AccountRules.DeleteMeExactly`, `VenueRules.AdminCountsEveryone`.

## How the model reads the code

- `me` is both the viewer object Python holds and the transaction's identity; `None` is an
  anonymous caller, for whom `rls_current_user_id()` is `NULL`. A policy admits a row only
  when its expression is `True`.
- A service call is one atomic step. What it raises, nothing of it survives; an insert must
  pass the table's `WITH CHECK`, its select policy (the row is read back), its foreign keys
  and its uniqueness, and failing any of them aborts the call with `Refused`. An update or
  delete the policies do not admit touches nothing.
- Ids come from outside; an id already in use makes the insert fail, as the primary key would.
- `Visibility.Unrecognised` is any string but the three tiers. Editable columns nothing
  depends on are folded into one text per table.
- A signed-in request names its account and the handle that account would get if this were
  its first request; the row is created when it is missing.
- Times are whole seconds. `near` is an arbitrary relation standing for the 50 metres of
  `ST_DWithin`; it is not assumed symmetric.
- `generate_key_between` is a library function. A digit-by-digit midpoint over base-62
  fractions that do not end in the lowest digit meets its promise and takes its place.

## Where the code and its description differ

- `create_checkin` (`app/services/checkin.py:101-111`) evaluates the venue's verification
  after its own commit, and `get_session` (`app/core/database.py:52-55`) closes the session
  without another. The automatic verification is therefore true inside that session
  (`Histories.VerifiedInSession`) and rolled back with it
  (`Histories.VerificationIsNotCommitted`, `Histories.ThirdVisitIsForgotten`): in committed
  states only an admin's confirmation verifies a venue, and then it had five visitors, with
  or without a Google id (`Histories.VerifiedHadVisitors`).
- An admin may look across a block but not like across one: the like is written and the
  notification's insert policy then aborts the call (`SocialRules.LikeSucceedsExactly`,
  `Witnesses.AdminAcrossBlockIsTurnedAway`). An admin's bookmark across a block does stay,
  which is why isolation speaks of members' bookmarks.
- The bookmark listings have no admin clause: an admin does not find bookmarked private
  content of others in them though `can_view` admits it
  (`Listings.BookmarkedCheckinsAreExact`, `Witnesses.AdminAcrossBlockIsTurnedAway`).
- `unlike_checkin` and `unlike_list` promise not-found for what was not liked. A like can be
  taken back only while its target is still visible, since `checkin_likes_select` and
  `list_likes_select` follow the target's visibility (`SocialRules.UnlikeSucceedsExactly`,
  `SocialRules.ListUnlikeSucceedsExactly`, `Witnesses.HiddenLikeCannotBeTakenBack`); a
  bookmark can be removed at any time (`SocialRules.UnbookmarkSucceedsExactly`).
- `_with_router_prefix` recovers the prefix for templates that start with a slash and do not
  end in one (`RouterPrefix.PrefixIsRestored`). For a template that ends in one it does so
  only if, besides, the prefix has no slash (`RouterPrefix.PrefixUnderTrailingSlash`,
  `Witnesses.TrailingSlashIsNotRestored`). Every route in the application is of the first
  kind or empty.

## Model

| member | source | states |
|---|---|---|
| `FractionalKeys.KeyBetween` | app/services/list_item.py:47 | a key always exists strictly between two bounds in order, either of them open: the promise `generate_key_between` makes |
| `FractionalKeys.ByteOrderIsDigitOrder` | app/models/list_item.py:44 | byte order on the stored text (`COLLATE "C"`) is digit order, so the database sorts as the keys compare |
| `Ordering.OrderedUnique` | app/services/list_item.py:34-38 | rows with distinct positions have exactly one arrangement in increasing position, and the query returns it |
| `ListItems.ScanPositionAfter` | app/services/list_item.py:50-69 | the scan for the item to follow finds the gap right behind it, or the front, or reports that it is not on the list |
| `ListEditing.AddIsInsertion` | app/services/list_item.py:109-125 | adding succeeds iff the venue is not on the list and the item to follow is; it writes one row and the list reads as the old one with the entry appended or inserted behind that item |
| `ListEditing.MoveIsReinsertion` | app/services/list_item.py:159-166 | moving rewrites one row's position; the list reads as the entry taken out and put back behind the target, and unchanged when an item is moved behind itself, although the scan does not skip it |
| `ListEditing.RemoveIsRemoval` | app/services/list_item.py:197-202 | removing deletes one row and the list reads as before without that entry |
| `ListEditing.EditRefines` | app/services/list_item.py:72-202 | one edit by someone who may change the list is one edit of a plain sequence or raises exactly the error read off that sequence; positions, ids and venues stay distinct and every other list reads as before |
| `ListEditing.RunRefines` | app/services/list_item.py:72-202 | any run of adds, moves and removes by any callers, the owner, admins and people turned away, reads by position as the same run on a plain sequence |
| `ContentServices.AddListItem` | app/services/list_item.py:72-125 | the statements of `add_list_item` do to the session what the insertion function says, error by error |
| `ContentServices.MoveListItem` | app/services/list_item.py:128-166 | the statements of `move_list_item`, likewise |
| `ContentServices.RemoveListItem` | app/services/list_item.py:169-202 | the statements of `remove_list_item`, likewise |
| `Authz.PythonAgreesWithSql` | migrations/versions/190c719287e2_add_blocking_mute_and_reporting_tables.py:93-132 | Python's `can_view` admits a row iff the SQL function is TRUE in three-valued logic, in every state, for every owner, tier and viewer, anonymous ones included |
| `Authz.WhoCanView` | app/core/authz.py:80-111 | the rule spelled out: owner and admins always; a block in either direction hides everything else; then public, or close friend |
| `Authz.GuardRevealsOnlyTheVisible` | app/core/authz.py:114-144 | not-owner is only answered about something viewable, not-found exactly about what is hidden, and the guard lets through exactly whom the write policies admit |
| `Listings.VenueListingIsExact` | app/services/checkin.py:147-172 | under the select policies a venue's listing admits exactly the undeleted check-ins of active accounts that `can_view` admits |
| `Listings.UserListingIsExact` | app/services/checkin.py:187-211 | the same for an account's own listing |
| `Listings.ListsListingIsExact` | app/services/list.py:85-105 | an account's lists: exactly those `can_view` admits, without the deleted and active conditions |
| `Listings.BookmarkedCheckinsAreExact` | app/services/bookmark.py:72-99 | bookmarked check-ins: exactly the bookmarked, undeleted ones `can_view` admits, for members; for an admin only those a tier grants as well |
| `Listings.BookmarkedListsAreExact` | app/services/bookmark.py:139-165 | the same for bookmarked lists |
| `Listings.VenuePagesAreExact` | app/services/checkin.py:165-172 | row i of a venue's page is row offset + i of the check-ins the reader may see there, undeleted and of active accounts, and there are limit of them or as many as are left |
| `HiddenRows.GetHidesOrShows` | app/services/checkin.py:114-132 | a single read, anonymous or signed in, finds a row iff it is visible and not deleted, and answers the same from the reader's view of the database alone |
| `HiddenRows.UpdateCheckinIsBlind` | app/services/checkin.py:214-251 | editing a check-in answers, and changes what the caller can see, as if hidden rows did not exist |
| `HiddenRows.DeleteListIsBlind` | app/services/list.py:143-168 | deleting a list, likewise, cascades included |
| `HiddenRows.LikeCheckinIsBlind` | app/services/like.py:26-55 | liking, likewise, notification included |
| `HiddenRows.BookmarkCheckinIsBlind` | app/services/bookmark.py:35-53 | bookmarking, likewise |
| `HiddenRows.HiddenEqualsAbsent` | app/core/authz.py:125-144 | two states that differ only in check-ins and lists the caller cannot view give the same answer and the same visible effect to every get, anonymous ones included, and to every update, delete, like, un-like and bookmark |
| `SocialRules.NotifyingNeedsNoBlock` | migrations/versions/190c719287e2_add_blocking_mute_and_reporting_tables.py:425-442 | a notification from the caller can be written iff its id is new and no block stands between the two, admins included |
| `SocialRules.FollowSucceedsExactly` | app/services/follow.py:19-46 | a follow is refused for oneself, nothing where it stands, and otherwise goes through iff the account exists and no block stands between the two; it adds its row and one notification, in full. The function itself never looks for a block |
| `SocialRules.LikeSucceedsExactly` | app/services/like.py:26-55 | which answer a like gets and the rows it leaves: the check-in must be visible and undeleted, one's own is liked quietly, anyone else's with one notification, and a block between the two, an admin's too, rolls both back |
| `SocialRules.ListLikeSucceedsExactly` | app/services/like.py:84-111 | the same for lists |
| `SocialRules.BookmarkSucceedsExactly` | app/services/bookmark.py:35-53 | a bookmark adds its one row iff the check-in can be seen and is not yet bookmarked |
| `SocialRules.FollowThenUnfollow` | app/services/follow.py:49-60 | unfollowing undoes a follow but for the notification it sent |
| `SocialRules.ReadingLeavesNoneUnread` | app/services/notification.py:56-78 | after marking all read the unread count is zero, exactly those that counted are marked, and nothing else changes |
| `Blocking.BlockedPairsAreStrangers` | app/services/block.py:34-67 | after any run from any state that keeps the invariant, admins among its accounts or not, two accounts with a block between them have no follow, close friendship, like, notification or member's bookmark linking them |
| `Blocking.UnblockRestoresNothing` | app/services/block.py:70-87 | blocking and then unblocking leaves the pair severed |
| `SocialServices.FollowAccount` | app/services/follow.py:19-46 | the statements of `follow_user`: a refused notification takes the follow down with it |
| `SocialServices.UnfollowAccount` | app/services/follow.py:49-73 | the statements of `unfollow_user`, which `remove_follower` shares |
| `SocialServices.DropFollowsBetween` | app/services/block.py:52-58 | the loop over both directions leaves neither follow nor the closeness resting on it |
| `SocialServices.BlockAccount` | app/services/block.py:34-67 | the statements of `create_block`: insert, loop, purge, commit |
| `Sessions.Session.PurgeInteractions` | migrations/versions/619903be1de5_add_block_retroactive_purge_function.py:56-93 | five deletes one after the other amount to the purge as a whole |
| `SocialServices.ReadNotificationsOf` | app/services/notification.py:66-78 | the loop over unread rows marks exactly those |
| `SocialServices.LikeOneCheckin` | app/services/like.py:26-55 | the statements of `like_checkin` |
| `SocialServices.LikeOneList` | app/services/like.py:84-111 | the statements of `like_list` |
| `SocialServices.BookmarkOneCheckin` | app/services/bookmark.py:35-53 | the statements of `bookmark_checkin` |
| `Invariants.BlockSeparates` | migrations/versions/619903be1de5_add_block_retroactive_purge_function.py:56-93 | the purge re-establishes isolation for the newly blocked pair and keeps everyone else's |
| `Invariants.LikeCheckinKeeps` | app/services/like.py:34-55 | a like never links a blocked pair, because the notification's insert policy aborts the call |
| `Invariants.CreateVenueKeeps` | migrations/versions/f7514fe63beb_add_venue_discovery_enrichment_fields.py:102-114 | creating a venue keeps the Google id unique even though the lookup cannot see suspended venues |
| `Invariants.EveryRunKeeps` | app/core/database.py:52-55 | every committed state, after any run of the 34 service calls and the provider's events, keeps its foreign keys, unique handles and Google ids, distinct list rows and the isolation of blocked pairs |
| `Application.Server.Handle` | app/core/database.py:52-55 | one request served statement by statement, over any database in use, in its own session that is closed without a further commit, leaves exactly the state machine's next state and answers exactly the error its specification raises, or none |
| `Application.Server.ServeAll` | app/core/auth.py:25-61 | so does any sequence of requests, and the invariant holds throughout |
| `AccountDeletion.DeletionIsClosed` | app/services/user.py:161-170 | the rows an account deletion removes include the account and are closed under the cascading foreign keys |
| `AccountDeletion.DeletionIsLeast` | app/models/close_friend.py:29-36 | they are the least such set: any closed set that holds the account holds each of them |
| `AccountDeletion.SurvivorsUnchanged` | app/services/user.py:161-170 | every row that stays keeps its columns |
| `AccountDeletion.AttributionsCleared` | app/models/venue.py:68-73 | venues and reports stay, losing only an attribution to the deleted account |
| `Invariants.PurgeUserKeeps` | app/services/user.py:161-170 | deleting an account leaves every foreign key valid and the rest of the invariant intact |
| `Sessions.Session.DeleteUser` | app/services/user.py:169 | the delete and its cascades, table after table, under the delete policy |
| `Histories.RunCarries` | app/services/venue.py:193-260 | over any run a venue stays, keeps its place and Google id, is never unverified and never unsuspended |
| `Histories.VerifiedHadVisitors` | app/services/venue.py:210-224 | a committed verified venue had, in some earlier committed state, at least five distinct public visitors |
| `Histories.OnlyAdminsCommitVerification` | app/services/venue.py:193-224 | the only request that commits a verification is an admin's confirmation |
| `Histories.VerifiedInSession` | app/services/checkin.py:101-109 | inside the session, right after a public check-in, the venue is verified iff it was before or it has a Google id and three distinct public visitors |
| `Histories.VerificationIsNotCommitted` | app/services/checkin.py:101-111 | once that request is over, whoever made it, a venue is verified iff it was before: the evaluation follows the commit and nothing commits it |
| `Histories.ThirdVisitIsForgotten` | migrations/versions/f7514fe63beb_add_venue_discovery_enrichment_fields.py:67-79 | a concrete third visit that verifies the venue for its own session only |
| `Histories.LaterNeighbourWasConfirmed` | app/services/venue.py:108-129 | of two venues in reach of each other and unsuspended now, the later was created with `confirm_duplicate`, because suspension is never undone |
| `AccountServices.AddVenue` | app/services/venue.py:100-129 | the statements of `create_venue`, both layers of duplicate detection |
| `AccountServices.ConfirmVenue` | app/services/venue.py:193-224 | the statements of `verify_venue_by_admin` |
| `ContentServices.AddCheckin` | app/services/checkin.py:83-111 | the statements of `create_checkin`: what is committed and what is still pending when it returns |
| `ContentServices.ChangeCheckin` | app/services/checkin.py:229-251 | the statements of `update_checkin` |
| `ContentServices.RetireCheckin` | app/services/checkin.py:254-281 | the statements of `soft_delete_checkin` |
| `ContentServices.ChangeList` | app/services/list.py:108-140 | the statements of `update_list` |
| `Histories.EveryRenameIsTimed` | app/services/user.py:96-108 | a handle changes only through the account's own profile edits |
| `Histories.RenamesAreSpaced` | app/services/user.py:97-105 | over any run in which ids are issued once, consecutive changes of one handle are a full interval apart and the row carries the time of the last |
| `Histories.RenamesTakeTime` | app/services/user.py:49-51 | k changes span at least k - 1 intervals of thirty days, whatever the clock does in between |
| `Histories.SuspendedForGood` | app/services/user.py:132-158 | a suspended account is suspended or deleted in every later state |
| `AccountServices.AuthenticateUser` | app/core/auth.py:35-47 | `get_current_user`: an account not yet known is created, a suspended one refused, a frozen one reactivated |
| `AccountServices.EditProfile` | app/services/user.py:70-108 | the statements of `update_profile` |
| `RateLimiter.CountersAreFaithful` | app/middleware/rate_limit.py:85-91 | up to the end of its window a counter holds the number of increments it has seen, and its expiry falls past that end |
| `RateLimiter.WindowAdmitsExactly` | app/middleware/rate_limit.py:160-176 | without faults a window admits exactly min(requests, limit) |
| `RateLimiter.StrictHoldsUnderFaults` | app/middleware/rate_limit.py:196-201 | the strict tier admits at most its limit per window even when the store errs at any step, before or after incrementing |
| `RateLimiter.BaselineExceedsOnlyByFaults` | app/middleware/rate_limit.py:178-201 | the baseline tier lets more through only for requests that met a fault |
| `RateLimiter.AnyHourAdmitsTwiceTheLimit` | app/middleware/rate_limit.py:161-172 | any closed interval of 3600 seconds admits at most twice the limit, and on the tier that fails open one more for each fault this caller met within it |
| `RateLimiter.EveryCounterExpires` | app/middleware/rate_limit.py:83-91 | every counter in every reachable store has an expiry |
| `RateLimiter.AtMostTwoLiveCounters` | app/middleware/rate_limit.py:161-162 | at most two counters per tier and caller are live at once |
| `RateLimiter.RetryAfterReachesANewWindow` | app/middleware/rate_limit.py:203-214 | a refused caller who waits Retry-After lands in a later window |
| `RateLimiter.RefusalIsExact` | app/middleware/rate_limit.py:171-176 | when the store answers, a caller is refused iff the window's count has passed the limit |
| `RateLimiter.RemainingIsTrue` | app/middleware/rate_limit.py:216-221 | the advertised remainder is the limit less every request counted so far |
| `RateLimiter.RateLimitMiddleware.IncrementAndExpire` | app/middleware/rate_limit.py:85-91 | the script's commands, one after the other |
| `RateLimiter.RateLimitMiddleware.Dispatch` | app/middleware/rate_limit.py:157-201 | response and store after one request, faults included |
| `RateLimiter.StrictSurvivesTrailingSlash` | app/middleware/rate_limit.py:141-151 | a trailing slash does not dodge the strict tier |
| `RouteMatch.MatchesBySegments` | app/middleware/route_match.py:28-39 | a path matches a template iff they have as many segments and each segment matches |
| `RouterPrefix.PrefixIsRestored` | app/middleware/request_context.py:145-157 | for any prefix and instantiation of a template without trailing slash the result is prefix plus template iff the template starts with a slash (or, having none, was not filled in) |
| `RouterPrefix.PrefixUnderTrailingSlash` | app/middleware/request_context.py:145-157 | for any prefix and instantiation of a template that ends in a slash the result is prefix plus template iff the prefix has no slash and the template starts with one |
| `CategoryTree.ResolveNames` | app/services/venue_category.py:43-62 | each category gets its name in the locale, or failing that in the default locale |
| `CategoryTree.GroupByParent` | app/services/venue_category.py:74-76 | the loop groups rows by parent, in input order |
| `CategoryTree.ChainIsUnique` | app/services/venue_category.py:78-88 | with unique ids the chain from a root to a row is unique, so the unguarded recursion never meets a row twice, whatever cycles the pointers form |
| `CategoryTree.BuildTree` | app/services/venue_category.py:65-90 | the tree holds exactly the categories named all the way up to a root, each once, each level in input order under its own slug and name |
| `RlsIdentity.TransactionsSeeTheirOwnSession` | app/core/database.py:68-85 | in every interleaving of sessions over a pool, an open transaction sees the identity its own session has recorded, or none; in the moment before a new one is applied, the one it had; never one another session recorded |
| `RlsIdentity.IdentityHoldsAcrossTransactions` | app/core/database.py:117-144 | an identity once set holds in every later transaction of the session, across its commits and rollbacks |
| `RlsIdentity.OthersDoNotInterfere` | app/core/database.py:138-144 | nothing another session does changes what this one sees |
| `RlsIdentity.Pool.SetCurrentUserIdentity` | app/core/database.py:68-85 | record, begin a transaction if none is open, apply: after these steps of the protocol the open transaction sees the caller |
| `RlsIdentity.Pool.ClearCurrentUserIdentity` | app/core/database.py:88-114 | the reverse |
| `RlsIdentity.Pool.EndTransaction` | app/core/database.py:5-8 | the connection goes back to the pool without an identity |
| `RlsIdentity.Pool.BeginTransaction` | app/core/database.py:117-144 | the hook re-applies the session's identity |
| `AcceptLanguage.ParseIsPattern` | app/core/i18n.py:27-29 | reading an entry left to right finds exactly what the regular expression matches |
| `AcceptLanguage.ParseAcceptLanguage` | app/core/i18n.py:44-69 | the loop yields the languages of the ranking |
| `AcceptLanguage.CandidatesAreExact` | app/core/i18n.py:55-67 | the ranked entries are the well-formed ones in a supported language, each once |
| `AcceptLanguage.RankingIsStableSort` | app/core/i18n.py:65-69 | the ranking is a permutation of them by descending weight, ties in header order, however the weights are rounded |
| `AcceptLanguage.StableSortIsUnique` | app/core/i18n.py:69 | no other order is |
| `AcceptLanguage.ResolveLocale` | app/core/locale.py:28-32 | the result is always supported: the account's own locale, else the heaviest earliest entry, else the default |
| `ClientIp.LastEntriesDecide` | app/core/client_ip.py:69-89 | with n proxies the address depends only on the last n entries of the last header |
| `ClientIp.PrependingChangesNothing` | app/core/client_ip.py:63-89 | prepending any text and a comma to a header with n entries changes nothing |
| `ClientIp.ShortHeaderIsRefused` | app/core/client_ip.py:77-87 | a header with fewer entries than proxies establishes no address |
| `ClientIp.OutermostPeerIsResolved` | app/core/client_ip.py:71-89 | when each of n proxies appends its peer, the address resolved is the outermost proxy's peer, whatever header it received |
| `ListItems.GateMeetsItemPolicies` | migrations/versions/f6a3d857e142_enable_rls_on_likes_bookmarks_list_.py:252-281 | whoever passes the Python gate on a list meets the policies on its items, and only they do |
| `Venues.AdminMeetsVenuePolicy` | migrations/versions/c1d5a8f042e7_enable_rls_on_venues_and_catalog_tables.py:92-100 | `require_admin` and the venues update policy let the same callers through |
| `RateLimiter.StrictExactly` | app/middleware/rate_limit.py:59-78 | a path is on the strict tier iff it is posted to and agrees, up to one trailing slash and a final newline, with a declared route |
| `HiddenRows.SoftDeleteIsBlind` | app/services/checkin.py:254-281 | soft deletion answers as if hidden rows did not exist |
| `HiddenRows.UpdateListIsBlind` | app/services/list.py:108-140 | editing a list, likewise |
| `HiddenRows.LikeListIsBlind` | app/services/like.py:84-111 | liking a list, likewise |
| `HiddenRows.BookmarkListIsBlind` | app/services/bookmark.py:102-120 | bookmarking a list, likewise |
| `SocialServices.BefriendAccount` | app/services/close_friend.py:23-44 | the statements of `add_close_friend` |
| `SocialServices.UnfriendAccount` | app/services/close_friend.py:47-60 | the statements of `remove_close_friend` |
| `SocialServices.UnblockAccount` | app/services/block.py:70-87 | the statements of `remove_block` |
| `SocialServices.UnlikeOneCheckin` | app/services/like.py:58-71 | the statements of `unlike_checkin`: a like on hidden content is not found |
| `SocialServices.UnlikeOneList` | app/services/like.py:114-125 | the statements of `unlike_list` |
| `SocialServices.UnbookmarkOneCheckin` | app/services/bookmark.py:56-69 | the statements of `unbookmark_checkin` |
| `SocialServices.BookmarkOneList` | app/services/bookmark.py:102-120 | the statements of `bookmark_list` |
| `SocialServices.UnbookmarkOneList` | app/services/bookmark.py:123-136 | the statements of `unbookmark_list` |
| `ContentServices.EraseCheckin` | app/services/checkin.py:284-297 | the statements of `hard_delete_checkin` |
| `ContentServices.AddList` | app/services/list.py:33-48 | the statements of `create_list` |
| `ContentServices.EraseList` | app/services/list.py:143-168 | the statements of `delete_list` |
| `AccountServices.Reactivate` | app/services/user.py:125-140 | the statements of `reactivate_account` |
| `AccountServices.ProvisionUser` | app/core/auth.py:117-147 | a missing account is created; if the insert meets a row that came first, that row is used; a handle taken by someone else is an error |
| `AccountServices.FreezeUser` | app/services/user.py:111-122 | the statements of `freeze_account` |
| `AccountServices.SuspendUser` | app/services/user.py:143-158 | the statements of `suspend_account` behind `require_admin` |
| `AccountServices.DeleteUser` | app/services/user.py:161-170 | the statements of `delete_account` |
| `AccountServices.ShutVenue` | app/services/venue.py:227-242 | the statements of `close_venue` behind `require_admin` |
| `AccountServices.HideVenue` | app/services/venue.py:245-260 | the statements of `suspend_venue` behind `require_admin` |
| `RlsIdentity.EveryInterleavingIsSafe` | app/core/database.py:138-144 | the protocol's invariant, step by step and over every interleaving: own identity in open transactions, none on idle connections, no connection shared |
| `RouteMatch.PatternMatchIsInstantiation` | app/middleware/route_match.py:28-44 | any path matches any template iff it is the template with a non-empty, slash-free value put in for each parameter, followed by nothing, a slash, a newline or both: `$` also holds before a final newline |
| `Sessions.GuardMeetsContentPolicies` | migrations/versions/b7e4f209ac31_enable_rls_on_checkins_lists_venue_saves.py:182-203 | whoever `ensure_visible_and_owned` lets through, the content policies let write, before and after the edit, and nobody else |
| `Sessions.OwnRowIsWritable` | migrations/versions/e4f8b21ac930_enable_rls_on_users_follows_close_.py:86-98 | an account may always update and delete its own row: no block hides it from itself |
| `Sessions.AdminsWriteEveryVenue` | migrations/versions/c1d5a8f042e7_enable_rls_on_venues_and_catalog_tables.py:92-100 | `require_admin` lets a caller through iff the venue policies let them write, suspended venues included |
| `Sessions.OwnersSeeEveryTier` | migrations/versions/190c719287e2_add_blocking_mute_and_reporting_tables.py:109-132 | an owner or admin sees a row whatever tier it is moved to, so no edit fails its read-back |
| `Sessions.Session.VerifyVenue` | migrations/versions/f7514fe63beb_add_venue_discovery_enrichment_fields.py:59-80 | the guarded update of `is_verified`, past row security |
| `ContentServices.EvaluateVenueVerification` | app/services/venue.py:132-158 | `evaluate_venue_verification` verifies at three distinct public visitors |
| `Blocking.SeededIsValid` | app/models/user.py:98-118 | a fresh deployment with any accounts and roles keeps the invariant |
| `HiddenRows.UnlikeCheckinIsBlind` | app/services/like.py:58-71 | taking a like back answers as if hidden rows did not exist |
| `HiddenRows.UnlikeListIsBlind` | app/services/like.py:114-125 | the same for lists |
| `SocialRules.UnlikeSucceedsExactly` | app/services/like.py:58-71 | a like is taken back, and nothing else changes, iff it was given and its check-in can still be viewed; otherwise the answer is that it was never given |
| `SocialRules.ListUnlikeSucceedsExactly` | app/services/like.py:114-125 | the same for lists |
| `SocialRules.UnbookmarkSucceedsExactly` | app/services/bookmark.py:56-69 | a bookmark is taken back, and nothing else changes, iff it was given |
| `Witnesses.HiddenLikeCannotBeTakenBack` | migrations/versions/f6a3d857e142_enable_rls_on_likes_bookmarks_list_.py:146-190 | a state with two likes whose targets have since been made private: both are there and neither can be taken back |
| `Witnesses.AdminAcrossBlockIsTurnedAway` | migrations/versions/190c719287e2_add_blocking_mute_and_reporting_tables.py:434-442 | a state with an admin across a block: the check-in is visible and cannot be liked, its bookmark stays and is not listed |
| `Witnesses.TrailingSlashIsNotRestored` | app/middleware/request_context.py:145-157 | a template with a trailing slash loses the prefix `/api/v1` |
| `Witnesses.TwoVisitorsMeetsTheInvariant` | app/services/checkin.py:101-111 | the state whose third visit is forgotten meets the invariant |
| `AccountDeletion.DeletionIsThePurge` | app/services/user.py:161-170 | `delete_account` commits that removal: the policies admit every account's delete of itself |
| `Listings.UserPagesAreExact` | app/services/checkin.py:204-211 | the same for an account's own listing: offset and limit count only rows the reader may see |
| `Listings.ListPagesAreExact` | app/services/list.py:98-105 | the same for an account's lists |
| `Listings.BookmarkedCheckinPagesAreExact` | app/services/bookmark.py:80-99 | the same for bookmarked check-ins: every one shown to a member, and to an admin those a tier grants as well |
| `Listings.BookmarkedListPagesAreExact` | app/services/bookmark.py:148-165 | the same for bookmarked lists |
| `Application.Server.ServeSignedIn` | app/core/auth.py:25-61 | sign-in, then the call, on one session: the same state and the same answer |
| `Filtering.KeptIsFiltered` | app/services/checkin.py:157-170 | a query's `WHERE` over ordered rows leaves exactly the rows that pass, each as often as it occurs and in their order |
| `Filtering.PageIsPage` | app/services/checkin.py:165-172 | row i of a page is row offset + i of those that pass, and there are limit of them or as many as are left |
| `PolicyRules.OnlyTrueCounts` | migrations/versions/190c719287e2_add_blocking_mute_and_reporting_tables.py:109-132 | what the connectives of three-valued logic leave once a policy admits only on TRUE |
| `PolicyRules.OwnerOrAdmin` | migrations/versions/b7e4f209ac31_enable_rls_on_checkins_lists_venue_saves.py:83-92 | the owner-or-admin test holds for the owner and for admins, never for an anonymous caller |
| `PolicyRules.UsersPolicies` | migrations/versions/190c719287e2_add_blocking_mute_and_reporting_tables.py:419-433 | an account is visible to whoever shares no block with it and to admins, and written by itself and admins |
| `PolicyRules.FollowsPolicies` | migrations/versions/e4f8b21ac930_enable_rls_on_users_follows_close_.py:100-119 | a follow is made by the follower, undone by either side, and by admins |
| `PolicyRules.CloseFriendsPolicies` | migrations/versions/222227e6de3b_narrow_unused_delete_permissiveness_on_.py:60-91 | both parties see a close friendship, only its owner writes it |
| `PolicyRules.BlocksPolicies` | migrations/versions/190c719287e2_add_blocking_mute_and_reporting_tables.py:309-336 | a block is seen and lifted by the blocker alone |
| `PolicyRules.ContentPolicies` | migrations/versions/b7e4f209ac31_enable_rls_on_checkins_lists_venue_saves.py:165-203 | who sees a row and who may write it, in two-valued terms, anonymous callers included |
| `PolicyRules.ReactionPolicies` | migrations/versions/f6a3d857e142_enable_rls_on_likes_bookmarks_list_.py:143-250 | likes and bookmarks are inserted by their own user on content that user can see |
| `PolicyRules.ItemPolicies` | migrations/versions/f6a3d857e142_enable_rls_on_likes_bookmarks_list_.py:252-281 | items are written by the list's owner and seen by whoever sees the list |
| `PolicyRules.NotificationsPolicies` | migrations/versions/190c719287e2_add_blocking_mute_and_reporting_tables.py:419-442 | notifications are read by their parties while no block stands between them, written under the same rule, and marked read by the recipient |
| `PolicyRules.VenuesPolicies` | migrations/versions/c1d5a8f042e7_enable_rls_on_venues_and_catalog_tables.py:60-106 | a suspended venue is visible to admins only; any signed-in caller adds one; admins alone change one |
| `SocialRules.UnfollowSucceedsExactly` | app/services/follow.py:49-73 | ending a follow from either side removes that follow and the closeness resting on it and nothing else; without a follow the answer is not-found |
| `SocialRules.BefriendingSucceedsExactly` | app/services/close_friend.py:23-44 | only a follower becomes a close friend; that adds the one row; a second time changes nothing |
| `SocialRules.UnfriendingSucceedsExactly` | app/services/close_friend.py:47-60 | removing a close friend removes that row and nothing else |
| `SocialRules.BlockSucceedsExactly` | app/services/block.py:34-67 | a block is refused for oneself, nothing where the caller has already blocked the account, not admitted for an unknown account, and otherwise committed, whether or not the other side has blocked the caller: it adds its row, both follows and the closeness between the two go, and so does each reaction and notification that links them, and no other row of any table |
| `SocialRules.UnblockSucceedsExactly` | app/services/block.py:70-87 | only the caller's own block is lifted, and nothing else changes |
| `SocialRules.ListBookmarkSucceedsExactly` | app/services/bookmark.py:102-120 | the same for lists |
| `SocialRules.ListUnbookmarkSucceedsExactly` | app/services/bookmark.py:123-136 | the same for lists |
| `SocialRules.UnreadAreExact` | app/services/notification.py:56-63 | what counts as unread: addressed to the account, not yet read, and not from someone a block separates it from; admins see past the block |
| `ContentRules.NewCheckinExactly` | app/services/checkin.py:83-101 | checking in at a venue the caller can see commits one row with the tier, text, owner and venue asked for |
| `ContentRules.EditCheckinExactly` | app/services/checkin.py:229-251 | a committed edit leaves each field named at its new value and every other field and row as it was; not-found for what cannot be seen, not-owner for what can be seen and not changed |
| `ContentRules.MadePrivateIsHidden` | app/services/checkin.py:246-251 | a check-in edited to private is missing, on its own and in listings, for every reader but its owner and admins |
| `ContentRules.DropCheckinExactly` | app/services/checkin.py:254-281 | soft deletion keeps the row and marks it, and changes nothing else |
| `ContentRules.DroppedIsGone` | app/services/checkin.py:114-132 | a deleted check-in is missing for every reader, its owner and admins too, though its row stays |
| `ContentRules.PurgeCheckinExactly` | app/services/checkin.py:284-297 | only an admin removes a check-in for good; the row, its likes and its bookmarks go and nothing else |
| `ContentRules.ReadCheckinExactly` | app/services/checkin.py:114-132 | a read answers the row itself iff it is there, not deleted and `can_view` admits it |
| `ContentRules.NewListExactly` | app/services/list.py:33-48 | a new list is the caller's own, with the tier and text asked for |
| `ContentRules.EditListExactly` | app/services/list.py:108-140 | the same exactness for list edits |
| `ContentRules.ListMadePrivateIsHidden` | app/services/list.py:108-140 | a list edited to private is missing, on its own and in listings, for every reader but its owner and admins |
| `ContentRules.ReadListExactly` | app/services/list.py:51-70 | a read answers the list iff `can_view` admits it |
| `ContentRules.DropListExactly` | app/services/list.py:143-168 | deleting a list removes its row, items, likes and bookmarks; every other list's items stay in their order, and so does everything else |
| `ContentRules.ItemGateExactly` | app/services/list_item.py:72-107 | the gate of the item calls: not-found for a list that cannot be seen, not-owner for one that can be seen and not changed |
| `ContentRules.TurnedAwayFromItems` | app/services/list_item.py:72-202 | whom the gate stops gets that answer from every item call |
| `AccountRules.SignInExactly` | app/core/auth.py:35-47 | a new account is an active member under its fallback handle, a suspended one is turned away, a frozen one is active again, an active one as it was |
| `AccountRules.RequestExactly` | app/core/auth.py:25-61 | one request leaves the sign-in and, if it commits, the call; a caller turned away leaves nothing |
| `AccountRules.ProvisionedExactly` | app/api/v1/webhooks.py:50-102 | the provider's announcement creates the account once, unless its handle is taken |
| `AccountRules.ProviderDeletionExactly` | app/api/v1/webhooks.py:105-137 | the provider's deletion removes the account and all that hangs off it, if it is there |
| `AccountRules.EditExactly` | app/services/user.py:70-108 | a profile edit writes the fields named and stamps a change of handle; it is refused within thirty days of the last, and for a handle someone else holds, which is only told when the caller can see the holder |
| `AccountRules.FreezeExactly` | app/services/user.py:111-122 | freezing sets an active account's status and nothing else |
| `AccountRules.FreezeIsUndoneBySigningIn` | app/services/user.py:125-140 | signing in after freezing restores the very state before it |
| `AccountRules.SuspendExactly` | app/services/user.py:143-158 | an admin, an existing account, not yet suspended: then its status becomes suspended and nothing else changes |
| `AccountRules.SuspendedIsShutOut` | app/services/user.py:154-158 | after a suspension commits the account is suspended, its sign-in is refused and none of its calls changes the state |
| `AccountRules.InactiveIsUnlisted` | app/services/checkin.py:157-164 | check-ins of frozen and suspended accounts are in no listing, for any reader |
| `VenueRules.NewVenueExactly` | app/services/venue.py:65-129 | a visible Google match is the venue; a hidden one refuses the insert; then nearness counts unless confirmed; a new venue is unverified, open, unsuspended and its creator's |
| `VenueRules.SuspensionHides` | app/services/venue.py:173-190 | a suspended venue is found by admins only, and by no anonymous caller |
| `VenueRules.VisitorsAreThoseAnyoneMaySee` | app/services/venue.py:37-49 | the accounts that count as visitors are those with a check-in at the venue that an anonymous reader finds |
| `VenueRules.VerifyIfEligibleExactly` | migrations/versions/f7514fe63beb_add_venue_discovery_enrichment_fields.py:59-80 | the guarded update verifies iff the venue has a Google id and enough visitors, and writes that flag alone |
| `VenueRules.VerifyExactly` | app/services/venue.py:193-224 | an admin's confirmation needs five distinct visitors, a Google id or not, and sets that flag alone |
| `VenueRules.CloseExactly` | app/services/venue.py:227-242 | an admin's closing sets that flag alone, once |
| `VenueRules.HideExactly` | app/services/venue.py:245-260 | an admin's suspension sets that flag alone, once |
| `HiddenRows.ViewIsWhatCanBeSeen` | migrations/versions/190c719287e2_add_blocking_mute_and_reporting_tables.py:93-132 | the view used above holds exactly the check-ins and lists `can_view` admits and what hangs off them, column for column, and every other table whole |
| `HiddenRows.AddingHiddenCheckinChangesNothing` | app/core/authz.py:125-144 | adding a check-in the caller may not view leaves every answer as it was |
| `HiddenRows.AddingHiddenListChangesNothing` | app/core/authz.py:125-144 | the same for a list |
| `RateLimiter.FaultsFailApart` | app/middleware/rate_limit.py:196-201 | on a fault the baseline tier serves the request, uncounted, and the strict tier answers unavailable |
| `RateLimiter.AdmissionsAreCountedOrFaults` | app/middleware/rate_limit.py:178-201 | a baseline window admits exactly what the store let through plus every request that met a fault; a strict window exactly what the store let through |
| `RateLimiter.RetryAfterIsExact` | app/middleware/rate_limit.py:203-221 | the counter answers up to the second before the time told and is gone at it, for refused and admitted callers |
| `RateLimiter.HourlyFigures` | app/middleware/rate_limit.py:32-58 | in figures: 30 an hour on the strict tier, 600 on the other while the store answers, 60 and 1200 in any stretch of an hour; windows start on the hour |
| `RateLimiter.StrictMeansTheseSixPaths` | app/middleware/rate_limit.py:59-78 | the strict tier spelled out segment by segment: posting a check-in or venue, following, and the three report routes, one trailing slash more or less, and with or without a final newline |
| `CategoryTree.LevelsKeepInputOrder` | app/services/venue_category.py:74-88 | each level is its parent's rows, of those the named ones, each once and in the order given |
| `CategoryTree.NameIsTheRows` | app/services/venue_category.py:43-62 | a category's name in a locale is the one its row gives, a later row over an earlier, and there is none without a row |
| `AcceptLanguage.CharacterClasses` | app/core/i18n.py:27-29 | the pattern's three character classes, by code |
| `AccountRules.AnswerExactly` | app/core/auth.py:35-47 | a caller turned away is told why; past the gate the answer is the error the call raised, or none |
| `ClientIp.SocketAddressCounts` | app/core/client_ip.py:54-67 | with no proxy or no header the socket's address is answered and the header ignored |
| `Text.StripIsInner` | app/core/client_ip.py:69 | stripping takes spaces off both ends and nothing else |
| `AcceptLanguage.DecimalsReadAsWritten` | app/core/i18n.py:60 | the number a weight stands for: digits before the dot and the fraction behind it, either part left out but not both |
| `AcceptLanguage.TwoDotsAreNoNumber` | app/core/i18n.py:60-62 | a weight with two dots is malformed |
| `AcceptLanguage.MissingWeightIsOne` | app/core/i18n.py:60 | an entry without a weight weighs one |
| `AcceptLanguage.LanguageOfTag` | app/core/i18n.py:33-41 | a tag's language is what precedes its first hyphen, in lower case |
| `AcceptLanguage.ServedLanguages` | app/core/i18n.py:21-22 | Turkish and English are served, in any case, and nothing else |

## Left out

- Routers, request and response schemas, problem rendering, CORS, compression and logging.
- Session tokens, webhook signatures, HMAC keys and UUIDs: callers and rate-limit scopes are opaque distinct values.
- The provider's update event for an existing account, which only refreshes email and avatar.
- PostGIS distances and trigram search (`search_venues`): libraries that are not part of this model.
- The fractional-indexing library's own algorithm, which is not part of this model: only its promise is, with a midpoint that keeps it.
- Redis and SQLAlchemy internals, and savepoints.
- Two requests racing on the same rows, and two list edits whose read and write interleave: each call is one step.
- Mutes, venue saves, report queues and the seed catalogue, beyond the rows an account deletion reaches.
- Listings of followers, followings, blocked users, close friends and notifications; like counts.
- Timezone checks on the date of a visit, and the order in which a page's rows were created (an arbitrary order is given).
- The migrations' superseded policies: the final text of each is modelled.
- Accounts.ReactivateAccount: it runs before the identity is set (`app/core/auth.py:47`, `:60`); the `users_update` policy on that one write is not modelled.
- Sessions.Session: the identity of a session is fixed when it is opened; that it is applied to every transaction of it is `RlsIdentity`.
- HiddenRows.HiddenEqualsAbsent: item edits on hidden lists and un-bookmarking are not among its probes; removing a bookmark does depend on a row hanging off hidden content.
- Histories.LaterNeighbourWasConfirmed: creation by an admin also sees suspended venues; the statement covers currently unsuspended pairs.
- RateLimiter: a store that loses counters early (eviction, restart) and clocks that differ between workers.
- AcceptLanguage.RankingIsStableSort: which decimals the floating-point rounding maps together is left open; entries of weight zero are kept, as in the code.
- ClientIp.LastEntriesDecide: the address parser is an arbitrary function; negative proxy counts are not modelled.
- CategoryTree.BuildTree: rows with repeated ids, which the primary key excludes, are not modelled; the order by slug is the query's.
