# Nemi Hub decision rules, in Dafny

Nemi Hub is a React front end for intentional communities: discussions,
consent and majority votes ("decisions"), projects, documents, notifications
and a members directory. Its data is almost entirely mock constants, but a
handful of small decision rules sit inside the components. This project lifts
those rules out of the JSX and proves what they do:

- **Decisions page** (`Decisions`): the tally update of `handleVote`
  (`Tallied`, the step-by-step `CountVote`, and `CastVote` over the list), the
  deadline label of `daysRemaining` (`DaysRemaining` on integer milliseconds
  with `now` passed in, through `CeilDiv`, which is `Math.ceil` of a division),
  the list filter, and the page's five seeded decisions.
- **Vote dialog** (`VoteDialogs`): the positions each voting method offers,
  the "Cast Vote" enabled rule (`CanSubmit`), the block warning (`ShowsBlockWarning`), and the
  dialog as a class with its `position` and `statement` fields.
- **Avatar hook** (`Avatar`): `useUpdateAvatar`'s ordered checks, its
  `<userId>.<ext>` storage path, and `useAvatar`'s search through five
  extensions (`FindAvatar`, a loop with an early return). Storage upload,
  `getPublicUrl`, the profile upsert and the HEAD probe are parameters: two
  success flags and two functions.
- **Avatar dialog** (`AvatarDialog`): the four fields of state as a class. It
  covers the reset effect while closed, file selection, and the save handler,
  which reuses the hook's checks and path. "Save Changes" is disabled exactly
  when `SaveDisabled` holds: no file, or an upload running.
- **Profile edit form** (`ProfileEditing`): the name validator and the
  removal of `undefined` entries before the mutation.
- **Discussion page** (`DiscussionDetails`): the comment draft, its blank
  guard and the "Post Comment" button. The comment list is a `const` and
  `HandleSubmitComment` may change only the draft. So posting never changes
  the list or the "Comments (n)" count.
- **List pages** (`Projects`, `Documents`, `Discussions`, `Communities`,
  `Activity`, `Notifications`, `Members`): each `Array.filter` as `Lists.Filter`
  applied to the page's own condition. Each page states which items are kept,
  that the result is an order-preserving sub-list of the input, and that a kept
  item appears as many times as it does in the input.

Shared pieces: `Text` holds JavaScript's `toLowerCase`, `includes`, `trim`,
`split` and `join`. `Lists` holds `filter` and the sub-list relation.
`Wrappers` holds `Option` and `Result`.

## Model

| member | source | states |
|---|---|---|
| Decisions.Tallied | src/pages/DecisionsPage.tsx:173-178 | a vote raises `total` by one and the position's counter by one; no other counter and not `total_members` changes |
| Decisions.CountVote | src/pages/DecisionsPage.tsx:173-178 | the in-place increments on the copied `votes` give exactly the `Tallied` tally |
| Decisions.TallyByPosition | src/pages/DecisionsPage.tsx:174-178 | 'agree'/'yes' count as agree, 'disagree'/'no' as disagree, 'abstain' and 'block' as themselves; any other string raises `total` alone |
| Decisions.RecognisedVoteKeepsConsistency | src/pages/DecisionsPage.tsx:173-178 | if agree+disagree+abstain+block equals total, it still does after a recognised vote |
| Decisions.UnrecognisedVoteBreaksConsistency | src/pages/DecisionsPage.tsx:174-178 | an unrecognised position breaks that equality, since only `total` rises |
| Decisions.CastVote | src/pages/DecisionsPage.tsx:171-182 | the list keeps its length and order; only decisions whose id equals the selected id get the new tally; all others are unchanged |
| Decisions.CastVoteOnSelected | src/pages/DecisionsPage.tsx:171-182 | the voted decision counts one more vote, keeps `total_members`, and keeps every field other than `votes` |
| Decisions.CastVoteKeepsConsistency | src/pages/DecisionsPage.tsx:171-182 | a recognised vote keeps every decision's counters adding up to its total |
| Decisions.SeedTalliesConsistent | src/pages/DecisionsPage.tsx:27-138 | every seeded tally adds up |
| Decisions.VoteLostAsWritten | src/pages/DecisionsPage.tsx:168-190 | as written, an 'agree' on decision '1' leaves its shown total at 11, while the updated list has 12 |
| Decisions.DisplayedAfterVoteAsWritten | src/pages/DecisionsPage.tsx:168-190 | as written, the list shown after a vote is the list shown before it |
| Decisions.CeilDiv | src/pages/DecisionsPage.tsx:205 | `Math.ceil(a / b)` is the least q with a <= q·b: (q−1)·b < a <= q·b |
| Decisions.DaysRemaining | src/pages/DecisionsPage.tsx:200-211 | 'Closed' iff the rounded-up day count is negative; a day count is shown only from 2 on, and it is the rounded-up count |
| Decisions.DeadlineText | src/pages/DecisionsPage.tsx:206-210 | a day count reads as its decimal digits followed by ' days left', and those digits denote the count |
| Decisions.DecimalText | src/pages/DecisionsPage.tsx:210 | `${n}` is a non-empty run of digits with no leading zero (unless n is 0) that denotes n |
| Decisions.DeadlineTextDistinguishes | src/pages/DecisionsPage.tsx:206-210 | two labels of `daysRemaining` with the same text are the same label with the same day count |
| Decisions.DeadlineLabelByTimeLeft | src/pages/DecisionsPage.tsx:201-211 | 'Closed' iff the deadline is at least 24 h past; 'Closing today' iff it is less than 24 h past or up to now; '1 day left' iff it is at most 24 h ahead; otherwise n ≥ 2 days with (n−1) days < time left <= n days |
| Decisions.DaysUntilMonotone | src/pages/DecisionsPage.tsx:204-205 | with the same `now`, a later `closes_at` never has fewer days left |
| Decisions.FilterDecisions | src/pages/DecisionsPage.tsx:149-161 | order-preserving sub-list, each shown item as many times as in the input; kept iff the title or description contains the search (case-insensitive) and the community is 'all' or equal; 'active' also needs status 'active', 'my-votes' needs id '1' or '3' |
| Decisions.DecisionsOtherTabsAlike | src/pages/DecisionsPage.tsx:155-160 | all tabs other than 'active' and 'my-votes' give the same list |
| VoteDialogs.OfferedPositionsAreCounted | src/components/decisions/VoteDialog.tsx:58-116 | every offered position has a tally counter, and 'block' is offered only under consent |
| VoteDialogs.Offered | src/components/decisions/VoteDialog.tsx:58-116 | 'block' is offered iff the method is consent; 'abstain' is always offered; no position is offered twice |
| VoteDialogs.CanSubmit | src/components/decisions/VoteDialog.tsx:144 | disabled iff the position is '' or it is 'block' with an empty statement |
| VoteDialogs.WhitespaceStatementEnablesBlock | src/components/decisions/VoteDialog.tsx:144 | the statement is not trimmed: a single space enables a block |
| VoteDialogs.NonConsentNeverNeedsStatement | src/components/decisions/VoteDialog.tsx:92-116 | a position offered by a non-consent method is always submittable, whatever the statement |
| VoteDialogs.ShowsBlockWarning | src/components/decisions/VoteDialog.tsx:119-126 | the warning appears only for a position that consent offers and majority does not |
| VoteDialogs.WarningIffStatementRequired | src/components/decisions/VoteDialog.tsx:119-144 | for a chosen position, the warning shows iff an empty statement keeps "Cast Vote" disabled |
| VoteDialogs.VoteDialog.constructor | src/components/decisions/VoteDialog.tsx:29-31 | the mounted dialog starts with an empty position and statement |
| VoteDialogs.VoteDialog.Choose | src/components/decisions/VoteDialog.tsx:59 | choosing an offered position sets `position` only |
| VoteDialogs.VoteDialog.EditStatement | src/components/decisions/VoteDialog.tsx:134 | editing sets `statement` only |
| VoteDialogs.VoteDialog.Submit | src/components/decisions/VoteDialog.tsx:33-38 | hands the current position and statement to `onVote`, then resets both to '' and closes |
| VoteDialogs.VoteDialog.Cancel | src/components/decisions/VoteDialog.tsx:141 | closes and keeps both fields |
| VoteDialogs.VoteDialog.ReopenKeepingFields | src/pages/DecisionsPage.tsx:163-166 | opening for another decision changes the method and keeps both fields |
| VoteDialogs.VoteDialog.OpenFor | src/components/decisions/VoteDialog.tsx:29-31 | opening for a decision with nothing chosen |
| VoteDialogs.StaleBlockReachesMajorityDecision | src/pages/DecisionsPage.tsx:519-526 | a cancelled 'block' survives into a majority decision and is submitted |
| VoteDialogs.FreshDialogSendsOfferedPosition | src/components/decisions/VoteDialog.tsx:92-116 | a dialog opened for a majority decision sends one of its own positions, never 'block' |
| Avatar.CheckFile | src/hooks/use-avatar.ts:19-34 | passes iff the type is one of the four allowed and the size is at most 5 MiB; the type is checked before the size |
| Avatar.SizeLimitBoundary | src/hooks/use-avatar.ts:30-34 | 5 242 880 bytes pass, 5 242 881 fail |
| Avatar.FileExtension | src/hooks/use-avatar.ts:37 | the extension never contains '.', and a name without '.' is its own (lower-cased) extension |
| Avatar.AvatarPath | src/hooks/use-avatar.ts:37-38 | for a user id without '.', the path splits at '.' back into exactly the user id and the extension |
| Avatar.FileExtensionIsLastSegment | src/hooks/use-avatar.ts:36-37 | the extension has no '.', is the lower-cased text after the last '.', and is the whole lower-cased name when there is no '.' |
| Avatar.UpdateAvatar | src/hooks/use-avatar.ts:10-73 | uploads to `<userId>.<ext>` iff the user id, the file, the type and the size all pass; attempts the profile upsert only after a successful upload; returns the public URL only when both succeed |
| Avatar.UpdateAvatarErrorOrder | src/hooks/use-avatar.ts:11-71 | the first failing check decides the error, in the order: user, file, type, size, upload, profile |
| Avatar.FindAvatar | src/hooks/use-avatar.ts:83-101 | no lookup without a user id; otherwise the URL of the first of jpg, jpeg, png, webp, gif whose file exists, else undefined after trying all five |
| AvatarDialog.AvatarUploadDialog.constructor | src/pages/Profile/AvatarUploadDialog.tsx:29-34 | no file, preview = current avatar, empty name, not uploading |
| AvatarDialog.AvatarUploadDialog.ReceiveProps | src/pages/Profile/AvatarUploadDialog.tsx:40-47 | whenever the dialog is closed, the four fields reset; while it is open they are kept |
| AvatarDialog.AvatarUploadDialog.HandleFileChange | src/pages/Profile/AvatarUploadDialog.tsx:49-56 | a chosen file sets file, preview and name together; no file changes nothing |
| AvatarDialog.AvatarUploadDialog.SaveDisabled | src/pages/Profile/AvatarUploadDialog.tsx:216 | disabled exactly when no file is selected or an upload is running; so a reset dialog cannot save, and a selected file with no upload running enables Save |
| AvatarDialog.AvatarUploadDialog.HandleSave | src/pages/Profile/AvatarUploadDialog.tsx:58-147 | no file or no user: rejected, nothing changes; otherwise the hook's trace, `isUploading` false at the end, and the dialog closed on success only; a press on the enabled button by a signed-in user always reaches the upload |
| AvatarDialog.SaveUsesHookChecks | src/pages/Profile/AvatarUploadDialog.tsx:74-91 | past the guard, the upload goes to `<userId>.<ext>` iff the type is allowed and the size is at most 5 MiB, else that check's error |
| AvatarDialog.SaveThenClose | src/pages/Profile/AvatarUploadDialog.tsx:131-134 | a successful save closes the dialog, and the close effect leaves it reset |
| ProfileEditing.FieldErrors | src/pages/Profile/ProfileEdit.tsx:33-41 | a 'name' error iff the name has fewer than 3 characters; no other field ever gets one |
| ProfileEditing.NameLengthBoundary | src/pages/Profile/ProfileEdit.tsx:37 | length 2 is refused, length 3 accepted |
| ProfileEditing.DefinedEntries | src/pages/Profile/ProfileEdit.tsx:47-52 | keeps exactly the entries whose value is defined, in order, as a sub-list of the entries, each as many times as in the input |
| ProfileEditing.EmptyStringKept | src/pages/Profile/ProfileEdit.tsx:48 | an empty-string value is kept |
| ProfileEditing.HandleSave | src/pages/Profile/ProfileEdit.tsx:46-60 | the filtered entries go to the mutation, and the same entries reach `onSave` iff the mutation resolves |
| ProfileEditing.Submit | src/pages/Profile/ProfileEdit.tsx:28-42 | saving happens iff the name has at least 3 characters, otherwise only the 'name' error; once saving, the defined entries are sent and reach `onSave` iff the mutation resolves |
| DiscussionDetails.DiscussionPage.constructor | src/pages/DiscussionDetailsPage.tsx:66-68 | the draft starts empty |
| DiscussionDetails.DiscussionPage.EditDraft | src/pages/DiscussionDetailsPage.tsx:194 | typing replaces the draft |
| DiscussionDetails.DiscussionPage.PostDisabled | src/pages/DiscussionDetailsPage.tsx:199 | disabled iff every character of the draft is whitespace |
| DiscussionDetails.DiscussionPage.HandleSubmitComment | src/pages/DiscussionDetailsPage.tsx:81-91 | posts iff the button would be enabled; a posted draft is reset to '', a blank one is left as it was |
| Text.BlankIffAllWhitespace | src/pages/DiscussionDetailsPage.tsx:82 | `!s.trim()` holds iff every character is ECMAScript whitespace |
| Text.Includes | src/pages/members/index.tsx:58 | `includes` holds iff the needle occurs at some index |
| Text.MatchesSearchIgnoresCase | src/pages/ProjectsPage.tsx:169-170 | the search result does not depend on the letter case of either side |
| Text.JoinSplit | src/pages/members/index.tsx:111 | joining the parts of `split` restores the string |
| Lists.Filter | src/pages/ProjectsPage.tsx:168 | `filter` returns an order-preserving sub-list holding exactly the elements that satisfy the condition, each as many times as in the input |
| Lists.FilterCongruent | src/pages/ProjectsPage.tsx:175-182 | conditions that agree on the list give the same result |
| Projects.FilterProjects | src/pages/ProjectsPage.tsx:168-183 | order-preserving sub-list, each shown item as many times as in the input; kept iff the title or description contains the search (case-insensitive), community and status are 'all' or equal, and on 'my-projects' some member has id '1' |
| Projects.ProjectsOtherTabsAlike | src/pages/ProjectsPage.tsx:175-182 | every tab but 'my-projects' gives the 'all' result |
| Projects.ProjectsUnfiltered | src/pages/ProjectsPage.tsx:168-176 | an empty search with both selectors 'all' keeps every project |
| Documents.FilterDocuments | src/pages/DocumentsPage.tsx:135-149 | order-preserving sub-list, each shown item as many times as in the input; kept iff the title or content contains the search and the community is 'all' or equal; 'my-documents' needs author '1' or a contributor '1' |
| Documents.DocumentsOtherTabsAlike | src/pages/DocumentsPage.tsx:141-148 | every tab but 'my-documents' gives the 'all' result |
| Documents.ContributorLabel | src/pages/DocumentsPage.tsx:283 | 'contributor' iff the count is exactly 1, else 'contributors' (0 included) |
| Discussions.FilterDiscussions | src/pages/DiscussionsPage.tsx:103-116 | order-preserving sub-list, each shown item as many times as in the input; kept iff the title or body contains the search and the community is 'all' or equal; 'my-posts' needs author '1' or '2' |
| Discussions.DiscussionsOtherTabsAlike | src/pages/DiscussionsPage.tsx:109-115 | every tab but 'my-posts' gives the 'all' result |
| Communities.FilterCommunities | src/pages/CommunitiesPage.tsx:68-79 | order-preserving sub-list, each shown item as many times as in the input; kept iff the name or description contains the search; 'discover' needs a public community, 'my-communities' id '1' or '3' |
| Communities.DiscoverHidesPrivate | src/pages/CommunitiesPage.tsx:72-73 | a private community never appears under 'discover' |
| Communities.OtherTabEmptySearchShowsAll | src/pages/CommunitiesPage.tsx:69-78 | any other tab applies the search alone, so an empty search shows every community |
| Activity.FilterActivity | src/pages/ActivityPage.tsx:109-120 | order-preserving sub-list, each shown item as many times as in the input; kept iff the title, description, user name or community name contains the search, and type and community name are 'all' or equal |
| Activity.ActivityUnfiltered | src/pages/ActivityPage.tsx:110-119 | an empty search with both selectors 'all' keeps every entry |
| Notifications.FilterNotifications | src/pages/NotificationsPage.tsx:99-106 | order-preserving sub-list, each shown item as many times as in the input; kept iff the type is 'all' or equal and the read state fits 'all', 'unread' (not read) or 'read' (read) |
| Notifications.ShownCount | src/pages/NotificationsPage.tsx:158 | the count shown is the filtered list's length, never more than the notifications |
| Notifications.ReadAndUnreadPartitionAll | src/pages/NotificationsPage.tsx:101-103 | for one type filter, 'read' and 'unread' split the 'all' result: disjoint, together complete, counts adding up |
| Notifications.ReadAndUnreadCountsAdd | src/pages/NotificationsPage.tsx:99-106 | the 'read' and 'unread' counts add up to the 'all' count |
| Notifications.UnknownReadFilterShowsNothing | src/pages/NotificationsPage.tsx:101-103 | a read filter other than all/unread/read keeps nothing |
| Members.FilterMembers | src/pages/members/index.tsx:57-59 | order-preserving sub-list, each shown item as many times as in the input; kept iff the name contains the search (case-insensitive); only the name is searched |
| Members.EmptySearchShowsAllMembers | src/pages/members/index.tsx:58 | an empty search keeps every member |
| Members.Initials | src/pages/members/index.tsx:110-113 | the initials contain no space and number at most the parts of the name |
| Members.InitialsOfJoinedNames | src/pages/members/index.tsx:110-113 | the initials of `a + " " + b` are those of `a` followed by those of `b` |
| Members.InitialOfSingleWord | src/pages/members/index.tsx:110-113 | a name without spaces gives its first character |
| Members.InitialsOfEmptyName | src/pages/members/index.tsx:110-113 | an empty name gives no initials, since `""[0]` is `undefined` and `join` writes nothing for it |
| Members.LeadingSpaceIgnored | src/pages/members/index.tsx:110-113 | an empty part adds nothing: `" " + rest` has the initials of `rest` |
| Members.InitialsShape | src/pages/members/index.tsx:110-113 | no initial is a space, and there is at most one per part |
| Members.TwoWordInitials | src/pages/members/index.tsx:110-113 | two words give their two first letters ("Emma Watson" gives "EW") |

## Findings

| source | as written | input that shows it | evidently intended | confidence | as-written member | corrected member |
|---|---|---|---|---|---|---|
| src/pages/DecisionsPage.tsx:171-189 | `handleVote` builds `updatedDecisions` and then discards it: there is no state setter, and the page keeps rendering the module constant `mockDecisions` | a vote of 'agree' on decision '1': the "Vote Recorded" toast appears, yet the shown tally stays at 11 of 28 | the voted decision's tally includes the vote | high, not executed | Decisions.DisplayedAfterVoteAsWritten, Decisions.VoteLostAsWritten | Decisions.CastVote |
| src/pages/DecisionsPage.tsx:519-526 | the vote dialog stays mounted once a decision is selected, and Cancel only calls `onClose`, so `position` and `statement` carry over to the next decision | choose 'block' on decision '1' (consent), Cancel, open decision '2' (majority), type a statement: "Cast Vote" is enabled and sends 'block' for a majority decision | each opening starts with no position chosen | medium, not executed | VoteDialogs.VoteDialog.ReopenKeepingFields, VoteDialogs.StaleBlockReachesMajorityDecision | VoteDialogs.VoteDialog.OpenFor |

## Left out

- Rendering, layout, navigation, toasts, `console` logging, and the icon and colour tables. They display state and decide nothing.
- The network: the Supabase storage upload, `getPublicUrl`, the profile upsert, the `fetch` HEAD probe, and React Query invalidation. They appear as parameters: `uploadOk`, `profileOk`, `mutationOk`, `publicUrl`, `headOk`. Auth session handling, `src/lib/auth.ts` and the auth context are not part of this model.
- Date parsing and `toLocaleDateString`. Timestamps are integer milliseconds and `now` is a parameter. For realistic dates (differences below about 10^16 ms, some 300 000 years) the double-precision `diffTime / 86400000` rounds up to the same integer as `CeilDiv`; larger differences are not modelled. A `deadline` that does not parse gives `NaN` and the text "NaN days left", which the model does not have: its timestamps are always integers.
- Participation percentages and progress bars. They are floating point, and they divide by `total_members` without a guard.
- Decision lifecycle transitions, one vote per user, ranked-choice ballots and veto outcomes. The code has none of them.
- The "Create Decision" and other "New …" dialogs. Their submit buttons have no handler.
- The "Closed" tab of the Decisions page shows a placeholder rather than the filtered list. `FilterDecisions` still gives what the filter computes for it.
- Text.Lower: it lower-cases ASCII letters only. `toLowerCase` also maps other scripts, so a search involving non-ASCII capitals can differ.
- Avatar.FindAvatar: a HEAD probe is a yes/no answer per extension. In the page, a `fetch` that rejects (a network error, not a 404) throws out of the loop and React Query retries the query; the model instead moves on to the next extension.
- Members.Initials: `n[0]` takes one UTF-16 code unit, so for a name part starting outside the Basic Multilingual Plane (an emoji, say) the page shows a lone surrogate where the model takes the whole character.
- ProfileEditing.FieldErrors: it measures the name in characters. `name.length` counts UTF-16 code units, so the two differ for characters outside the Basic Multilingual Plane.
- ProfileEditing.Submit: it takes the name separately from the entries. The form type guarantees that `name` is a defined string, and the validator reads nothing else.
- AvatarDialog.AvatarUploadDialog.HandleSave: the upload is atomic in the model. The moment when `isUploading` is true and the buttons are disabled is not a separate state.
- VoteDialogs.VoteDialog.Choose: it takes only offered positions. The radio group reports nothing else.
- The Members page's "All Communities" and "All Roles" buttons. They have no logic.
