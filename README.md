# AEGIS client logic in Dafny

AEGIS is a learning platform. It has live quizzes, a research feed, a
researcher network, group chat and skill roadmaps. This project models the
deterministic logic at its core:

- the live-quiz **play resolver**. It maps the current time, the scheduled
  start and the per-question timers to the active question and its remaining
  seconds, or to "finished".
- the per-question UI reset, answer submission, score accumulation and the
  broadcast **leaderboard merge**.
- the **lobby**: the registration gate, the presence roster, the clamped
  countdown and the **auto-start** state machine around `isStarting`.
- **roadmap steps**: `createRoadmap` writes `step_order = index + 1`, and
  `getRoadmaps` sorts by it and projects titles. Also the pure derivation of
  roadmap detail modules.
- the stateful list and counter handlers:
  - the notification bell's unread count;
  - chat group membership (the creator is the earliest joiner; only new ids
    are inserted);
  - the feed's optimistic like with exact rollback, and comment add/delete;
  - follow toggling;
  - the three case-insensitive search filters;
  - the navigation bar's scroll and animation state.

Design choices:

- A component whose handlers update state is a `class`, and each handler is
  a method whose `ensures` gives the whole new state in terms of
  specification functions. The properties are proved about those functions
  as lemmas.
- Clocks are integers in milliseconds. Dafny's `/` by a positive divisor
  rounds down like `Math.floor`.
- A JavaScript "falsy or default" (`x || d`) is modelled explicitly:
  - a number: `None` or `Some(0)` gives the default;
  - a string: `None` or `Some("")` gives the default;
  - an `error` field of a server action's reply counts only when it is
    truthy (`Text.IsError`), so an empty message takes the success path.
- `Array.prototype.sort` is a stable insertion sort by an integer key.
- Database tables are in-memory sequences. Every reply of a server action or
  query the code cannot see is a parameter.

The quiz ends as soon as the last question's window closes, even if the
whole-quiz duration has not run out (`QuizPlay.ThreeQuestionScenario`); the model
follows the code here. The lobby page class reads the current `isStarting`
flag; the code as written does not (see Findings).

## Model

| member | source | states |
|---|---|---|
| QuizPlay.Duration | aegis/src/app/quiz/play/page.tsx:101 | a question's timer is its `timer_seconds`, or 15 when that is missing or 0 |
| QuizPlay.TotalSeconds | aegis/src/app/quiz/play/page.tsx:87 | whole-quiz length is `duration_minutes * 60`, or 15 * 60 when missing or 0 |
| QuizPlay.ElapsedSeconds | aegis/src/app/quiz/play/page.tsx:84 | elapsed seconds `e` satisfy `e*1000 <= now - start < e*1000 + 1000` (floor, also before the start) |
| QuizPlay.RemainingQuizTime | aegis/src/app/quiz/play/page.tsx:88 | remaining quiz time is never negative, is 0 exactly when elapsed >= total, and otherwise equals total - elapsed |
| QuizPlay.CumMonotone | aegis/src/app/quiz/play/page.tsx:98-107 | with positive timers, window starts grow by at least one second per question |
| QuizPlay.FindWindow | aegis/src/app/quiz/play/page.tsx:98-108 | the first question whose window `[cum(i), cum(i)+d_i)` holds `e`, or -1 exactly when no window holds it |
| QuizPlay.LocateQuestion | aegis/src/app/quiz/play/page.tsx:98-108 | the loop finds exactly `FindWindow`, with `qRemaining = cum(i) + d_i - e`; when nothing is found, `cumulative` is the sum of all timers |
| QuizPlay.Resolve | aegis/src/app/quiz/play/page.tsx:86-111 | remaining quiz time 0 means finished, whatever the timers. An active phase lies in the first matching window with 1..d_i seconds left. Finished while quiz time remains only after the last window. No window means quiz time remains and no question matches |
| QuizPlay.WindowResolvesToQuestion | aegis/src/app/quiz/play/page.tsx:98-108 | if `cum(i) <= e < cum(i) + d_i` and quiz time remains, the tick resolves to question i with `cum(i) + d_i - e` seconds left, in 1..d_i |
| QuizPlay.WindowsDisjoint | aegis/src/app/quiz/play/page.tsx:100-107 | with positive timers no second lies in two question windows |
| QuizPlay.Covered | aegis/src/app/quiz/play/page.tsx:100-108 | every second from 0 up to the total of the timers lies in some window |
| QuizPlay.PastLastQuestionFinishes | aegis/src/app/quiz/play/page.tsx:110-111 | once elapsed reaches the sum of all timers, a non-empty quiz resolves to finished |
| QuizPlay.BeforeStartKeepsIndex | aegis/src/app/quiz/play/page.tsx:100-118 | before the start (elapsed < 0) no question matches, so the index is left unchanged |
| QuizPlay.NoWindowOnlyBeforeStart | aegis/src/app/quiz/play/page.tsx:110-118 | with positive timers, "no question matched" happens only before the start |
| QuizPlay.ProgressionIsMonotonic | aegis/src/app/quiz/play/page.tsx:91-118 | a later tick never resolves to an earlier question (before start < question 0 < ... < finished) |
| QuizPlay.ThreeQuestionScenario | aegis/src/app/quiz/play/page.tsx:81-119 | timers 15/20/10 and a 300 s quiz: second 10 is question 0 with 5 s left, second 30 is question 1 with 5 s left, second 50 is finished, second -5 matches nothing |
| QuizPlay.QuizPlayer.constructor | aegis/src/app/quiz/play/page.tsx:31-43 | initial sync, answer and score state (index -1, nothing selected, score 0, empty leaderboard) |
| QuizPlay.QuizPlayer.Sync | aegis/src/app/quiz/play/page.tsx:79-119 | a tick sets the quiz time, the question time and the index from `Resolve`. It resets selection, result and correctness only when the index moves to a different question, and does nothing without a start time or questions |
| QuizPlay.ResponseTimeMs | aegis/src/app/quiz/play/page.tsx:131 | response time is `(timer - qTimeRemaining)` whole seconds in milliseconds, 0 when the question just opened |
| QuizPlay.QuizPlayer.SelectOption | aegis/src/app/quiz/play/page.tsx:126-160 | ignored when the result is shown or the index is below 0. Otherwise it selects, submits with the response time, and an accepted answer adds exactly `points` (default 0) to the total and broadcasts it. A rejection leaves the score unchanged |
| QuizPlay.MergeScore | aegis/src/app/quiz/play/page.tsx:67-70 | the merged leaderboard is sorted by score, highest first, and holds exactly the other users' entries plus the payload |
| QuizPlay.MergeScoreKeepsOthers | aegis/src/app/quiz/play/page.tsx:67-70 | after a merge the sender has exactly one entry, equal to the payload, and every other user's entry is kept |
| QuizPlay.LatestScoreWins | aegis/src/app/quiz/play/page.tsx:67-70 | two updates for one user leave the same entries as the last update alone |
| QuizPlay.QuizPlayer.OnScoreUpdate | aegis/src/app/quiz/play/page.tsx:66-70 | a `score_update` broadcast replaces the leaderboard by the merge |
| Text.FormatMinSecReadsBack | aegis/src/app/quiz/play/page.tsx:162-166 | `m:ss` formatting reads back as `(s / 60, s % 60)`, seconds are two zero-padded digits, and `m*60 + ss = s` |
| QuizLobby.LobbyPage.constructor | aegis/src/app/quiz/lobby/page.tsx:22-29 | the page starts loading, not starting, with no countdown and no participants |
| QuizLobby.LobbyPage.Init | aegis/src/app/quiz/lobby/page.tsx:38-60 | an unregistered user goes to the detail page before loading ends or any presence channel exists. Otherwise loading ends and a profile gets a presence channel keyed by its id |
| QuizLobby.TrackedInfo | aegis/src/app/quiz/lobby/page.tsx:76-82 | the tracked record copies id and avatar; the name defaults to 'Anonymous Participant' and the handle to 'Guest' |
| QuizLobby.DistinctCard | aegis/src/app/quiz/lobby/page.tsx:63-64 | distinct presence keys give as many keys as entries |
| QuizLobby.Roster | aegis/src/app/quiz/lobby/page.tsx:62-67 | one roster entry per presence key, in key order, namely the first record tracked under that key |
| QuizLobby.LobbyPage.OnPresence | aegis/src/app/quiz/lobby/page.tsx:62-73 | a presence sync, join or leave replaces the participants by the roster |
| QuizLobby.Countdown | aegis/src/app/quiz/lobby/page.tsx:103-105 | the countdown is never negative. It is 0 exactly when less than a second remains, and otherwise the floor of the remaining seconds |
| QuizLobby.TickDecision | aegis/src/app/quiz/lobby/page.tsx:109-115 | auto-start is considered exactly when the countdown is 0 and no start is in flight. A live quiz navigates without a call; any other status calls `autoStartQuiz` |
| QuizLobby.AfterAutoStart | aegis/src/app/quiz/lobby/page.tsx:115-125 | "Quiz already live or finished" navigates to play. Any other error clears `isStarting` so a later tick retries. Success keeps it set |
| QuizLobby.LobbyPage.UpdateTimer | aegis/src/app/quiz/lobby/page.tsx:100-127 | a tick stores the countdown and sets `isStarting` exactly when it decides to call the server; a quiz without a start time does nothing |
| QuizLobby.LobbyPage.AutoStartReturned | aegis/src/app/quiz/lobby/page.tsx:116-125 | the reply's navigation and `isStarting` update follow `AfterAutoStart` |
| QuizLobby.AutoStartCalls | aegis/src/app/quiz/lobby/page.tsx:100-133 | the number of `autoStartQuiz` calls a run of ticks and replies makes, reading `isStarting` either stale (as written) or live; never more than the number of ticks |
| QuizLobby.LiveFlagCallsAutoStartOnce | aegis/src/app/quiz/lobby/page.tsx:109-125 | reading the current flag, any run of ticks and non-retryable replies calls `autoStartQuiz` at most once, and never while a call is in flight |
| QuizLobby.StaleClosureCallsAutoStartTwice | aegis/src/app/quiz/lobby/page.tsx:102-133 | as written (a stale `isStarting`), a tick, a successful reply and a second tick make two calls; with the live flag they make one |
| QuizLobby.LobbyPage.OnStatusChange | aegis/src/app/quiz/lobby/page.tsx:145-147 | a remote update navigates to play exactly when the new status is 'live' |
| QuizLobby.FormatTime | aegis/src/app/quiz/lobby/page.tsx:157-162 | unknown time shows "--:--"; otherwise the text reads back as minutes and seconds of the value |
| Text.Initials | aegis/src/app/quiz/lobby/page.tsx:164 | at most 2 characters: the upper-cased first letters of the space-separated words, in order |
| Text.InitialsOfWords | aegis/src/app/quiz/lobby/page.tsx:164 | for a name made of space-free words, the initials are the first two upper-cased word initials |
| Text.JoinSplit | aegis/src/app/quiz/lobby/page.tsx:164 | splitting on a space and joining with a space gives back the name |
| Text.SplitJoin | aegis/src/app/quiz/lobby/page.tsx:164 | splitting a space-joined list of space-free words gives back the words |
| QuizLobby.GradientColor | aegis/src/app/quiz/lobby/page.tsx:166-174 | the gradient of a position is one of the four gradients |
| QuizLobby.GradientCycles | aegis/src/app/quiz/lobby/page.tsx:166-174 | gradients repeat every four places and neighbours differ |
| Roadmaps.GetRoadmaps | aegis/src/actions/roadmaps.ts:21-37 | a query error or missing data gives the empty list; otherwise one item per row, in row order |
| Roadmaps.ToItem | aegis/src/actions/roadmaps.ts:29-36 | an item copies id, title, field and colour from its row; its steps are the ordered titles |
| Roadmaps.OrderedTitles | aegis/src/actions/roadmaps.ts:34-36 | the steps are the titles of a reordering of the step rows that ascends by `step_order` |
| Roadmaps.Titles | aegis/src/actions/roadmaps.ts:36 | one title per step row, in order |
| Sorting.SortBy | aegis/src/actions/roadmaps.ts:35 | the sorted sequence ascends by the key and has the input's length |
| Sorting.SortByPermutes | aegis/src/actions/roadmaps.ts:35 | sorting only reorders: same elements, same multiplicities |
| Sorting.SortByStable | aegis/src/actions/chat.ts:36-42 | the sort is stable: the elements with any one key appear in their input order |
| Sorting.SortedUnique | aegis/src/actions/roadmaps.ts:35 | when no two elements share a key, the sorted order of a collection is unique |
| Sorting.SortSortedIsIdentity | aegis/src/actions/roadmaps.ts:35 | sorting a sequence already in key order returns it unchanged |
| Sorting.SortIdempotent | aegis/src/app/quiz/play/page.tsx:69 | sorting twice is sorting once |
| Sorting.SortedHeadIsLeast | aegis/src/actions/chat.ts:36-42 | the head of a sorted sequence has the least key |
| Roadmaps.StepRecords | aegis/src/actions/roadmaps.ts:62-66 | one step row per step, with the roadmap id as text, the step title and `step_order = index + 1` |
| Roadmaps.CreatedStepsReadBack | aegis/src/actions/roadmaps.ts:62-66 | steps written by `createRoadmap` come back from the read in their original order, whatever order the join returns the step rows in and whatever other roadmaps' rows surround them |
| Roadmaps.CreatedRoadmapReadsBack | aegis/src/actions/roadmaps.ts:43-66 | a created roadmap read back as an item has its own title, field, colour and steps, and its id as text, whatever order its step rows come back in |
| Roadmaps.RoadmapStore.CreateRoadmap | aegis/src/actions/roadmaps.ts:40-79 | a failed roadmap insert throws before any step insert. Empty steps insert no step rows. A failed step insert throws and leaves the roadmap row. Success appends exactly the roadmap row and its step rows |
| Text.IdToString | aegis/src/actions/roadmaps.ts:43 | a string id stays itself; a numeric id becomes its decimal text |
| RoadmapDetails.TopicsFor | aegis/src/data/roadmapDetails.ts:30-34 | three topics typed video, article, code, with durations 45m, 1h, 2h |
| RoadmapDetails.GenerateModules | aegis/src/data/roadmapDetails.ts:25-36 | one module per step; module i has id i+1, title `steps[i]`, status in-progress for i = 0 and locked otherwise, and the step's three topics |
| RoadmapDetails.OnlyFirstModuleInProgress | aegis/src/data/roadmapDetails.ts:29 | a non-empty step list gives exactly one in-progress module |
| RoadmapDetails.GetRoadmapDetails | aegis/src/data/roadmapDetails.ts:38-50 | null exactly when no entry's id text equals the id's text. Otherwise title, field, colour, description and modules come from the first matching entry |
| RoadmapDetails.NumberAndStringIdsAgree | aegis/src/data/roadmapDetails.ts:39 | a numeric id and a string id with the same text give the same result |
| Notifications.MarkRead | aegis/src/components/ui/NotificationBell.tsx:53 | only entries with the id become read; the others and the length are unchanged |
| Notifications.Remove | aegis/src/components/ui/NotificationBell.tsx:60 | removes exactly the entries with the id and keeps the others in order |
| Notifications.MarkAll | aegis/src/components/ui/NotificationBell.tsx:74 | every entry becomes read, nothing else changes |
| Notifications.MarkReadCount | aegis/src/components/ui/NotificationBell.tsx:53-54 | with distinct ids, marking one read lowers the unread number by one exactly when it was unread |
| Notifications.RemoveCount | aegis/src/components/ui/NotificationBell.tsx:60-64 | with distinct ids, deleting one lowers the unread number by one exactly when it was unread |
| Notifications.MarkAllCount | aegis/src/components/ui/NotificationBell.tsx:74-75 | after marking all read nothing is unread |
| Notifications.NotificationBell.constructor | aegis/src/components/ui/NotificationBell.tsx:10-11 | empty list, count 0, invariant holds |
| Notifications.NotificationBell.Fetch | aegis/src/components/ui/NotificationBell.tsx:31-50 | with a user and data, the list is the data and the count its unread number; without a user or data nothing changes |
| Notifications.NotificationBell.MarkAsRead | aegis/src/components/ui/NotificationBell.tsx:52-56 | the list becomes `MarkRead` and the count `max(0, count - 1)`, even if the item was already read; `0 <= count <= unread` is preserved |
| Notifications.NotificationBell.DeleteNotification | aegis/src/components/ui/NotificationBell.tsx:58-68 | the list becomes `Remove`; the count drops (not below 0) only if the removed item was unread; the invariant is preserved |
| Notifications.NotificationBell.MarkAllRead | aegis/src/components/ui/NotificationBell.tsx:70-77 | with a user, everything is read and the count is 0; without one nothing changes |
| Chat.WithoutMembership | aegis/src/actions/chat.ts:12-15 | deleting the `(conversation, user)` rows removes that membership and keeps every other |
| Chat.ChatStore.LeaveGroup | aegis/src/actions/chat.ts:6-23 | 'Not authenticated' without a user, 'Failed to leave group' on a failed delete; otherwise exactly the caller's row for the conversation is deleted |
| Chat.Creator | aegis/src/actions/chat.ts:32-42 | no creator exactly when the conversation has no participants |
| Chat.CreatorJoinedFirst | aegis/src/actions/chat.ts:36-42 | the creator is a participant of the conversation with the earliest join time |
| Chat.EarliestJoinerIsCreator | aegis/src/actions/chat.ts:36-42 | a participant who joined strictly first is the creator |
| Chat.ChatStore.RemoveUserFromGroup | aegis/src/actions/chat.ts:25-62 | returns 'Not authenticated', 'Failed to verify permissions' (fetch failure or no participants), 'Only the group creator can remove members.' or 'Failed to remove user. Check permissions.', changing nothing; otherwise only the target's row goes |
| Chat.MemberIds | aegis/src/actions/chat.ts:83-88 | the member id list holds exactly the users with a row in the conversation |
| Chat.NewMembers | aegis/src/actions/chat.ts:89 | the requested ids that are not members, in request order, with repeats kept |
| Chat.AddingAgainAddsNobody | aegis/src/actions/chat.ts:88-99 | once the new ids are added, the same request finds nobody new |
| Chat.Rows | aegis/src/actions/chat.ts:96-99 | one participant row per new id, in order |
| Chat.InsertedAreMembers | aegis/src/actions/chat.ts:88-99 | after the insert every requested id is a member |
| Chat.ChatStore.AddParticipants | aegis/src/actions/chat.ts:64-111 | 'Not authenticated'; 'You are not a member of this chat' unless exactly one membership row exists. No new ids: success with no change. Insert failure: 'Failed to add participants' with no change. Otherwise the new rows are appended and an existing conversation becomes a group, unless that update fails |
| Feed.FeedItem.constructor | aegis/src/components/tabs/FeedTab.tsx:34-42 | the like and comment counters start from the post's props |
| Feed.FeedItem.SyncProps | aegis/src/components/tabs/FeedTab.tsx:45-49 | a prop change resets likes, liked flag and comment count to the props, nothing else |
| Feed.Optimistic | aegis/src/components/tabs/FeedTab.tsx:99-100 | the optimistic step flips the liked flag and moves the count by -1 if it was liked, +1 if not |
| Feed.OptimisticTwiceRestores | aegis/src/components/tabs/FeedTab.tsx:99-100 | two optimistic steps cancel out |
| Feed.FeedItem.LikeClicked | aegis/src/components/tabs/FeedTab.tsx:92-101 | a click while a like is loading does nothing; otherwise it saves the old values, applies the optimistic step and marks loading |
| Feed.FeedItem.LikeSettled | aegis/src/components/tabs/FeedTab.tsx:103-119 | a truthy `error` or a throw restores exactly the saved values; an empty or missing `error` keeps the optimistic ones; loading always ends |
| Feed.FailedLikeRollsBack | aegis/src/components/tabs/FeedTab.tsx:92-119 | a click whose reply fails (truthy `error` or a throw) leaves likes and the liked flag exactly as before |
| Feed.SuccessfulLikeToggles | aegis/src/components/tabs/FeedTab.tsx:92-119 | a click whose reply does not fail (an empty `error` included) leaves the optimistic values |
| Feed.FeedItem.TypeComment | aegis/src/components/tabs/FeedTab.tsx:41 | typing replaces the comment input only |
| Feed.FeedItem.HandleAddComment | aegis/src/components/tabs/FeedTab.tsx:67-90 | a blank comment does nothing. A reply without a truthy `error` clears the input, raises the count by 1 and takes the re-fetched comments. A truthy `error` or a throw leaves input and count unchanged |
| Feed.RemoveComment | aegis/src/components/tabs/FeedTab.tsx:244 | removes exactly the comments with the id, keeping the rest in order |
| Feed.RemoveAbsentComment | aegis/src/components/tabs/FeedTab.tsx:244 | deleting an id no comment has leaves the list as it is |
| Feed.FeedItem.DeleteComment | aegis/src/components/tabs/FeedTab.tsx:237-247 | after confirmation and a reply without a truthy `error`, only that comment goes and the count drops by 1 (unclamped); otherwise nothing changes |
| Network.GetInitials | aegis/src/actions/network.ts:36-44 | '??' for a missing or empty name, otherwise the (at most two) upper-cased word initials |
| Network.GetInitialsExamples | aegis/src/actions/network.ts:36-44 | no name and the empty name give '??'; "ada lovelace" gives "AL" |
| Network.Achievements | aegis/src/actions/network.ts:31 | the random badge count lies in 1..20 |
| Network.ToUser | aegis/src/actions/network.ts:25-33 | id preserved. Name defaults to 'Anonymous Researcher' and role to 'Researcher' when falsy. The avatar is the initials, and `following` and `online` are false |
| Network.GetNetworkUsers | aegis/src/actions/network.ts:14-34 | a query error gives the empty list; otherwise one user per profile, in order |
| Network.Toggled | aegis/src/app/network/NetworkClientWrapper.tsx:12 | `following` flips on every user with the id; everything else is unchanged, length and order included |
| Network.ToggleTwiceRestores | aegis/src/app/network/NetworkClientWrapper.tsx:12 | toggling the same id twice restores the list |
| Network.ToggleAbsentId | aegis/src/app/network/NetworkClientWrapper.tsx:12 | an id no user has leaves the list unchanged |
| Network.TogglesCommute | aegis/src/app/network/NetworkClientWrapper.tsx:12 | toggles of two ids commute |
| Network.ToggleFreshUsers | aegis/src/app/network/NetworkClientWrapper.tsx:12 | on freshly loaded users, one toggle follows exactly the users with that id |
| Network.NetworkClient.ToggleFollow | aegis/src/app/network/NetworkClientWrapper.tsx:11-13 | the user list becomes the toggled list |
| Text.Contains | aegis/src/components/tabs/RoadmapsTab.tsx:95-96 | substring search: true exactly when the needle occurs at some position |
| Text.ContainsIgnoringCase | aegis/src/components/tabs/RoadmapsTab.tsx:95-96 | true exactly when the lower-cased query occurs in the lower-cased text |
| Text.ContainsIgnoringCaseProperties | aegis/src/components/tabs/RoadmapsTab.tsx:95-96 | the empty query always matches; upper- or lower-casing the query changes nothing |
| Lists.Filter | aegis/src/components/tabs/RoadmapsTab.tsx:94 | the kept elements satisfy the predicate, every satisfying element is kept, and the result is an order-preserving subsequence |
| RoadmapsTab.FilteredRoadmaps | aegis/src/components/tabs/RoadmapsTab.tsx:94-97 | a roadmap is kept exactly when its title or field contains the query ignoring case; the result is an order-preserving subsequence |
| RoadmapsTab.EmptyQueryKeepsAll | aegis/src/components/tabs/RoadmapsTab.tsx:94-97 | the empty query keeps every roadmap |
| RoadmapsTab.CaseInsensitive | aegis/src/components/tabs/RoadmapsTab.tsx:95-96 | queries with the same lower-case form select the same roadmaps |
| RoadmapsTab.UpperCaseQuery | aegis/src/components/tabs/RoadmapsTab.tsx:95-96 | an upper-cased query selects the same roadmaps |
| RoadmapsTab.GetColorStyles | aegis/src/components/tabs/RoadmapsTab.tsx:20-88 | the table entry for a known colour, the purple entry for any other |
| RoadmapsTab.KnownColors | aegis/src/components/tabs/RoadmapsTab.tsx:28-87 | the table knows exactly the seven colours; an unknown colour and a differently cased one fall back to purple |
| NetworkTab.FilteredUsers | aegis/src/components/tabs/NetworkTab.tsx:25-28 | a user is kept exactly when the name or role contains the query ignoring case; the result is an order-preserving subsequence |
| NetworkTab.EmptyQueryKeepsAll | aegis/src/components/tabs/NetworkTab.tsx:25-28 | the empty query keeps every user |
| NetworkTab.CaseInsensitive | aegis/src/components/tabs/NetworkTab.tsx:26-27 | queries with the same lower-case form select the same users |
| NetworkTab.UpperCaseQuery | aegis/src/components/tabs/NetworkTab.tsx:26-27 | an upper-cased query selects the same users |
| QuizCatalog.FilteredQuizzes | aegis/src/app/quiz/page.tsx:14-16 | a quiz is kept exactly when its title contains the query ignoring case; the result is an order-preserving subsequence |
| QuizCatalog.OnlyTitleMatters | aegis/src/app/quiz/page.tsx:14-16 | difficulty and time play no part in the match |
| QuizCatalog.EmptyQueryKeepsAll | aegis/src/app/quiz/page.tsx:15 | the empty query keeps every quiz |
| QuizCatalog.CaseInsensitive | aegis/src/app/quiz/page.tsx:15 | queries with the same lower-case form select the same quizzes |
| QuizCatalog.UpperCaseQuery | aegis/src/app/quiz/page.tsx:15 | an upper-cased query selects the same quizzes |
| Navbar.ActiveIndex | aegis/src/components/ui/SlidingNavbar.tsx:24 | the index of the tab whose id is the path, or -1 exactly when no tab's id is |
| Navbar.TabIdsDistinct | aegis/src/components/ui/SlidingNavbar.tsx:13-20 | no two tabs share a path |
| Navbar.ActiveIndexOfTabs | aegis/src/components/ui/SlidingNavbar.tsx:13-24 | each tab's own path selects that tab |
| Navbar.NestedPathHasNoTab | aegis/src/components/ui/SlidingNavbar.tsx:24 | a path below a tab ("/quiz/play") selects no tab |
| Navbar.IndicatorOpacity | aegis/src/components/ui/SlidingNavbar.tsx:79 | the indicator's opacity is 0 exactly when no tab is active, and 1 otherwise |
| Navbar.IndicatorSlot | aegis/src/components/ui/SlidingNavbar.tsx:77-78 | the indicator sits at the active tab, or at the first slot when none is active |
| Navbar.ShownAfterScroll | aegis/src/components/ui/SlidingNavbar.tsx:35-39 | the bar is hidden exactly when the new position is below the last one and past 100 px |
| Navbar.SlidingNavbar.constructor | aegis/src/components/ui/SlidingNavbar.tsx:26-29 | shown, not animating, last position 0, remembered index = the path's active index |
| Navbar.SlidingNavbar.OnScroll | aegis/src/components/ui/SlidingNavbar.tsx:32-42 | visibility follows `ShownAfterScroll` and the last position becomes the current one |
| Navbar.SlidingNavbar.Navigate | aegis/src/components/ui/SlidingNavbar.tsx:48-57 | a changed active index starts the animation and is remembered; an equal one changes nothing |
| Navbar.SlidingNavbar.AnimationEnded | aegis/src/components/ui/SlidingNavbar.tsx:51-53 | the timer ends the animation and changes nothing else |

## Left out

- Rendering (JSX, CSS class strings, theme and the background) and router calls. A navigation is a returned `Nav` value or a `Decision`.
- Supabase transport, realtime channels and presence delivery. Channel callbacks are method calls; delivery order and reconnection are outside the model.
- Clocks and timers (`Date.now`, `setInterval`, `setTimeout`, the 30-second notification poll). The time is an integer parameter in milliseconds, and each tick or timer firing is one method call.
- Server actions and queries whose code is not shown: `autoStartQuiz`, `submitAnswerSecure`, `getQuizSessionStatus`, `getQuizQuestions`, `getProfile`, `toggleLike`, `addComment`, `getComments` and `deleteComment`. Their replies and every database failure are parameters. Scoring, compare-and-set and registration rules are not modelled.
- QuizPlay.QuizPlayer.SelectOption: does not set `isCorrect` on an accepted answer. The code compares against a correct option index held on the client, and no property of that display is stated.
- QuizPlay.QuizPlayer.SelectOption: requires the current question index to be below the question count, because the answer buttons exist only while a question is showing.
- Async interleaving and multi-client races. Each handler runs to completion between events, except that the like handler is split at its `await` (`LikeClicked`, `LikeSettled`).
- The lobby page class reads the current `isStarting` flag; the stale closure of the code as written appears only in `QuizLobby.AutoStartCalls` (see Findings).
- Notifications.NotificationBell.Fetch: requires distinct ids in the fetched rows, because notification ids are the table's primary key.
- `Math.random` is a parameter in [0, 1); only the 1..20 bound of the badge is stated.
- Case mapping and `trim` are ASCII plus the common Unicode spaces. There is no full Unicode case mapping, and a word's first UTF-16 code unit is modelled as its first character.
- JavaScript numbers are unbounded integers; 53-bit precision and fractional scroll positions are not modelled.
- RoadmapsTab.GetColorStyles: colour names such as "constructor" that hit the object prototype are treated as unknown.
- `getRoadmaps` takes the roadmap rows in the order the `field` ordering of the query returns them; that server-side ordering is not modelled. The embedded step rows may come in any order (`Roadmaps.CreatedStepsReadBack` holds for every order). A roadmap's `steps` is always a list, never undefined.
- Chat.Creator: participants with equal join times keep table order (`Sorting.SortByStable`); the database leaves that order open. New rows get a join time passed as a parameter.
- A missing `isLiked` prop is modelled as false. Opening or closing comments (`toggleComments`) is not modelled, and neither are the dropdown and click-outside logic of the notification bell.
- The catalogue entries of the quiz page and the predefined roadmaps are static data and are parameters. The mock data file is not part of this model.
- The presence `track` call is modelled only by the record it sends (`QuizLobby.TrackedInfo`).

## Findings

| source | as written | input that shows it | evidently intended | confidence | as-written member | corrected member |
|---|---|---|---|---|---|---|
| aegis/src/app/quiz/lobby/page.tsx:102-133 | the countdown callback reads `isStarting` from the render that created it. The effect does not re-run when `isStarting` changes, so every tick sees `false` | countdown at 0, status "scheduled": a tick, a successful `autoStartQuiz` reply, then a second tick. This makes a second `autoStartQuiz` call | after a successful start no further call is made until an error asks for a retry | not executed | QuizLobby.StaleClosureCallsAutoStartTwice | QuizLobby.LiveFlagCallsAutoStartOnce |
