# voke: a verified model of the creator-economy state machine

voke is a single-page React app where writers publish posts, readers reward
them with point gifts and views, and an admin works through pending top-ups,
withdrawals, sign-ups, spotlight requests, reports and ads. All of this lives
in React state in `App.tsx`: an accounts table keyed by user id with point
balances, a post list with view, gift and spotlight fields, the request
queues, and a list of ads. Every handler replaces some of these fields with a
value computed from the old ones.

This project models these parts in Dafny:

- `Types` holds the records of `types.ts`.
- `JsArray` and `JsString` hold the JavaScript built-ins the code relies on:
  `filter`, `map`, `find`, `trim`, the tag-stripping regular expression,
  `toLowerCase`, `includes` and `replace('@', '')`.
- `App` holds each handler's computation as a pure function, with lemmas about it.
- `AppState.Store` is a class whose fields are the `useState` fields and whose
  methods are the handlers. Each method's postcondition ties the new fields to
  the `App` functions of the old ones.
- `Modals`, `PostCard`, `RichEditor`, `AdminDashboard` and `ProfileEditor` hold
  the rules of the components that feed those handlers. Pure rules are
  functions; component-local state (`PostCard.Card`, `RichEditor.Editor`,
  `AdminDashboard.AdjustPanel`, `ProfileEditor.ProfileForm`) is a class.

Modelling choices:

- Time, ids, the view viewer and the assistant's reply are parameters.
- Balances are exact `real`s, because a view credits a fractional rate.
- Dates are integer milliseconds.
- An absent optional boolean is `false`.
- An account that the code credits without it existing becomes `BlankUser` with
  the credited balance: the source would leave a record holding nothing but
  `giftBalance`.

What is proved, in brief:

- Gifts conserve points between two different accounts.
- Every queue operation removes exactly the targeted request.
- Every update of the account table or of a list changes only the targeted
  element, and only in the fields the source names.
- Saving an ad is an upsert.
- Every toggle applied twice is the identity.
- Each dialog's button agrees with its handler.
- The teaser is at most 203 characters and has no tags left.
- The search is an exact substring test.
- The username field round-trips.

The shell never passes `currentUserId` to `PostCard` (App.tsx:365 and
App.tsx:430-441). As a result, `isOwnPost` is always false in the running app.
The own-post controls (delete and spotlight) are never shown, and the gift
button always opens. The model keeps `IsOwnPost` as the card defines it.

## Model

| member | source | states |
|---|---|---|
| `JsString.BlankIff` | components/PostCard.tsx:49 | `!s.trim()` holds exactly when every character is ECMAScript white space, i.e. no character is visible |
| `JsString.ReplaceTagsIsTagFree` | components/Modals.tsx:284 | after `replace(/<[^>]*>/g, rep)` with a bracket-free replacement no `<` is followed by a `>`, so no tag is left |
| `JsString.ReplaceTagsFixesTagFree` | components/RichEditor.tsx:47 | the tag replacement leaves a tag-free string unchanged |
| `JsString.StripTagsIdempotent` | components/RichEditor.tsx:47 | stripping tags twice equals stripping them once |
| `JsString.IncludesIff` | components/AdminDashboard.tsx:57-58 | `includes` holds iff the needle occurs at some offset of the haystack |
| `JsString.RemoveFirst` | components/ProfileEditor.tsx:116 | `replace('@', '')` removes exactly one `@` when there is one, keeping every other character, and leaves the string as it is when there is none |
| `JsString.RemoveFirstAt` | components/ProfileEditor.tsx:116 | the `@` removed is the first one: the characters before it and after it stay in place |
| `Modals.NetAmountBounds` | components/Modals.tsx:369 | the payout estimate is never negative, never falls as the amount grows, is at least `amount*10 - 6500`, and is 0 exactly when `amount*10 <= 6500` |
| `Modals.InitialAmount` | components/Modals.tsx:363-367 | the amount the dialog opens with is `min(balance, 5000)` |
| `Modals.WithdrawLimits` | components/Modals.tsx:370-371 | a valid amount implies withdrawing is allowed, and the opening amount is valid exactly when the balance reaches 5000 |
| `Modals.OpenForm` | components/Modals.tsx:363-367 | opening the dialog resets only the amount |
| `Modals.Confirm` | components/Modals.tsx:373-378 | a withdrawal is emitted iff `5000 <= amount <= balance` and the account is non-empty; it carries the form's values, and the bank name only for "Bank Transfer" |
| `Modals.SubmitEnabledIffConfirms` | components/Modals.tsx:435 | the submit button is enabled exactly when confirming emits a withdrawal |
| `Modals.ConfirmPlan` | components/Modals.tsx:463 | confirming is possible iff the balance reaches the selected plan's cost, and it passes that plan's duration and cost |
| `Modals.PlanRules` | components/Modals.tsx:457-461 | the plans are (1 day, 200) and (3 days, 400), the default is the first plan, and affording any plan means affording the default |
| `Modals.SelectGift` | components/Modals.tsx:239-243 | a gift is selectable iff the balance reaches its price, and selecting it emits that gift |
| `Modals.GiftCatalogue` | components/Modals.tsx:219-224 | the prices are 10, 50, 200 and 1000 and strictly increase, so the affordable gifts are a prefix of the catalogue |
| `Modals.Teaser` | components/Modals.tsx:282-286 | a non-empty caption is the teaser; otherwise the de-tagged content, cut to 200 characters plus `...` when longer, which is at most 203 characters and tag-free |
| `Modals.TeaserOfPlainText` | components/Modals.tsx:282-286 | short plain-text content without a caption is its own teaser |
| `PostCard.PromotionOnlyExpires` | components/PostCard.tsx:56 | a promotion shown at some moment is shown at every earlier moment: it can only run out |
| `PostCard.CaptionBadge` | components/PostCard.tsx:122-126 | no badge for an empty caption; otherwise `#` followed by the caption without any `#` and with every other character kept as often as it occurs |
| `PostCard.CaptionBadgeOfChar` | components/PostCard.tsx:124 | a one-character caption shows `#` alone if it is `#`, otherwise `#` and that character |
| `PostCard.CaptionBadgeConcat` | components/PostCard.tsx:124 | the badge of a caption split in two is the first part's badge followed by the second part's badge body, so the kept characters stay in order |
| `PostCard.CaptionBadgeOfPlainCaption` | components/PostCard.tsx:124 | a caption without `#` is shown unchanged behind one `#` |
| `PostCard.Card.constructor` | components/PostCard.tsx:36-41 | a card starts collapsed, with an empty comment, both dialogs closed, and no view fired |
| `PostCard.Card.Expand` | components/PostCard.tsx:43-46 | expanding sets the flag and fires `onView(post.id)` when given; it is callable only while the control is shown (149), so a card fires at most one view |
| `PostCard.Card.TypeComment` | components/PostCard.tsx:279 | the input stores the typed text |
| `PostCard.Card.SendComment` | components/PostCard.tsx:48-53 | the untrimmed text is sent and the input cleared iff the text is not blank; otherwise nothing changes |
| `PostCard.Card.ClickGift` | components/PostCard.tsx:183 | the gift dialog opens unless the post is one's own |
| `PostCard.Card.ClickPromote` | components/PostCard.tsx:108 | the spotlight button opens the dialog |
| `PostCard.Card.ConfirmPromote` | components/PostCard.tsx:296 | an affordable plan emits only the post id and closes the dialog; the plan's duration and cost are dropped |
| `App.Credit` | App.tsx:104-105 | account `id` gains exactly `amount`, a missing account counting as 0 and being created; every other account is unchanged |
| `App.Synced` | App.tsx:51-58 | after the table changes, the session either stays as it is or adopts its account's whole record from the table, and it then carries that account's balance and name; without a session or an account it is unchanged |
| `App.RemoveTopUp` | App.tsx:326 | rejecting removes exactly the requests with the id and keeps every other one with its multiplicity |
| `App.ApproveTopUp` | App.tsx:100-109 | a known id credits its requester with exactly the points, changing no other field of that record and no other account, and removes only that id, keeping every other request with its multiplicity; an unknown id changes nothing |
| `App.RequestTopUp` | App.tsx:448 | a pending request for the signed-in user is put in front of the queue |
| `App.RemoveWithdraw` | App.tsx:111-114 | approving or rejecting removes exactly the requests with the id; no balance is involved |
| `App.RequestWithdraw` | App.tsx:449 | a pending request with the dialog's amount, method and account is put in front; the bank name is not kept |
| `App.NormalizeUsername` | App.tsx:88 | the result starts with `@` and is the input or `@` plus the input |
| `App.NormalizeUsernameIdempotent` | App.tsx:88 | normalising twice equals normalising once, and a name is kept exactly when it already starts with `@` |
| `App.SignUp` | App.tsx:86-95 | the new pending request is put in front of the queue; it carries the new id, status pending, the time, the normalised username, and the form's name, password, avatar, bio, WhatsApp number, e-mail and address |
| `App.RemoveSignup` | App.tsx:334 | rejecting removes exactly the requests with the id |
| `App.NewAccount` | App.tsx:119-133 | the new account has balance 1000, zero follower and following counts, status approved, and the request's name, username, password, avatar, bio, WhatsApp number, e-mail and address |
| `App.ApproveUser` | App.tsx:116-138 | a known request becomes that account under the new id, no other account changes, and only that request leaves the queue, every other one keeping its multiplicity; an unknown id changes nothing |
| `App.PendingPromos` | App.tsx:318 | the pending list holds exactly the posts awaiting a spotlight decision |
| `App.Promoted` | App.tsx:141 | an approved post is promoted, no longer pending, and ends a week from now, with no other field changed |
| `App.ApprovePromo` | App.tsx:140-143 | only posts with the id are promoted, whatever plan was chosen |
| `App.ApprovePromoWindow` | App.tsx:141 | an approved post shows as promoted exactly until now + 7 days and is off the pending list |
| `App.RejectPromo` | App.tsx:145-148 | rejecting clears only `isPendingPromotion`, on the posts with the id |
| `App.RejectPromoKeepsSpotlight` | App.tsx:145-148 | rejecting never changes whether a post shows as promoted and leaves none with the id pending |
| `App.PromoteRequest` | App.tsx:439 | a request only marks the posts with the id pending; no points move |
| `App.PromoteRequestIsPending` | App.tsx:439 | after a request the post is on the admin's pending list |
| `App.RemovePost` | App.tsx:151 | deleting removes exactly the posts with the id |
| `App.RemoveReport` | App.tsx:152 | dismissing removes exactly the reports with the id |
| `App.Liked` | App.tsx:434 | a like flips `isLiked` and moves `likes` by one in the matching direction, nothing else |
| `App.ToggleLike` | App.tsx:434 | only posts with the id change |
| `App.ToggleLikeTwice` | App.tsx:434 | liking twice restores the post list |
| `App.AddComment` | App.tsx:436 | the comment is appended to the posts with the id and nothing else changes |
| `App.Publish` | App.tsx:341 | the new post is put in front of the feed |
| `App.ToggleMember` | App.tsx:433 | follow and save toggles flip membership of the id only |
| `App.ToggleMemberTwice` | App.tsx:435 | toggling twice restores the set |
| `App.Viewed` | App.tsx:180 | a view adds exactly one to `views` and changes nothing else |
| `App.ViewPosts` | App.tsx:171-183 | only posts with the id gain a view |
| `App.ViewCreditsBalance` | App.tsx:170-184 | each account gains the view rate once per matching post it wrote, and only when a viewer is signed in and is not that author |
| `App.ViewCreditsUntouched` | App.tsx:174 | an account with no paid matching post is left exactly as it was |
| `App.ViewCreditsOnlyBalance` | App.tsx:176 | the queued view credits change no field of any account except its balance |
| `App.IncrementViewPaysAuthor` | App.tsx:170-184 | with unique post ids, a view adds 1 to the post and the view rate to its author iff a viewer other than the author is signed in, changing no other field of the author's record; every other account is unchanged |
| `App.GiftCheck` | App.tsx:187-190 | the top-up dialog opens exactly when the balance is below the price; the gift goes through exactly when a session, the post and the sender's account all exist |
| `App.GiftBalances` | App.tsx:191-195 | as written: between two accounts the sender loses and the author gains the price, so their sum is conserved; for one account the result is old + price; sender and author keep every other field, and all other accounts are unchanged |
| `App.SelfGiftMintsPoints` | App.tsx:191-195 | as written, a gift to one's own post raises one's balance by the price |
| `App.GiftTransfer` | App.tsx:191-195 | corrected transfer: the sum of the two balances is conserved in every case, sender and author keep every field but the balance, and a gift to oneself changes nothing |
| `App.GiftTransferAgrees` | App.tsx:191-195 | for two different accounts the corrected transfer equals the source's update |
| `App.GiftKeepsSenderSolvent` | App.tsx:187-195 | with the session in step with the table, a sent gift never leaves the sender below zero |
| `App.WithGift` | App.tsx:196-203 | the post's `gifts` grows by the price and that gift's counter by one, from 0 when new, with the gift's icon; other counters and fields stay |
| `App.GiftPosts` | App.tsx:196-203 | only posts with the id receive the gift |
| `App.GiftDialogAgreesWithHandler` | App.tsx:187 | a gift the dialog offers always passes the handler's balance check, and vice versa |
| `App.SaveAd` | App.tsx:156-163 | an existing id is replaced in place with the length kept; a new id is prepended |
| `App.SaveAdUpsert` | App.tsx:156-163 | after saving, looking the id up finds the saved ad, saving again changes nothing, and the length grows by one only for a new id |
| `App.ToggleAd` | App.tsx:165-168 | toggling flips only `isActive` of the ads with the id |
| `App.ToggleAdTwice` | App.tsx:165-168 | toggling twice restores the ad list |
| `App.RemoveAd` | App.tsx:336 | deleting removes exactly the ads with the id and keeps every other one with its multiplicity |
| `App.ActiveAd` | App.tsx:208-209 | the result is the first ad that is active at the position, and there is none exactly when no ad is |
| `App.Login` | App.tsx:62-84 | the admin pair signs in as the admin record; otherwise the result is the first account whose username is the normalised input, when its password is the typed one, and nothing when there is no such account or the password differs |
| `AppState.Store.Login` | App.tsx:62-84 | a successful login makes the found record the session; a failed one leaves the session as it was |
| `AppState.Store.Logout` | App.tsx:306 | the session ends |
| `AppState.Store.constructor` | App.tsx:21-37 | the initial state: no session, the seed tables, nothing open |
| `AppState.Store.SignUp` | App.tsx:86-95 | the queue becomes the sign-up of the old queue |
| `AppState.Store.ApproveUser` | App.tsx:116-138 | table and queue become the approval of the old ones, and the session is re-synced |
| `AppState.Store.RejectUser` | App.tsx:334 | only the sign-up queue changes, losing that request |
| `AppState.Store.UpdateViewRate` | App.tsx:98 | only the view rate changes |
| `AppState.Store.ApproveTopUp` | App.tsx:100-109 | table and queue become the approval of the old ones, and the session is re-synced |
| `AppState.Store.RejectTopUp` | App.tsx:326 | only the top-up queue changes, losing that request |
| `AppState.Store.ApproveWithdraw` | App.tsx:111-114 | only the withdrawal queue changes, so no balance moves |
| `AppState.Store.RejectWithdraw` | App.tsx:328 | only the withdrawal queue changes, exactly as on approval |
| `AppState.Store.ApprovePromo` | App.tsx:140-143 | only the posts change, to their approval |
| `AppState.Store.RejectPromo` | App.tsx:145-148 | only the posts change, to their rejection |
| `AppState.Store.DismissReport` | App.tsx:331 | only the reports change, losing that report |
| `AppState.Store.DeletePost` | App.tsx:150-154 | the post and the report are removed together |
| `AppState.Store.SaveAd` | App.tsx:156-163 | only the ads change, by the upsert |
| `AppState.Store.ToggleAd` | App.tsx:165-168 | only the ads change, by the toggle |
| `AppState.Store.DeleteAd` | App.tsx:336 | only the ads change, losing that ad |
| `AppState.Store.Publish` | App.tsx:341 | the signed-in user's new post is prepended, with every counter at 0, and the editor closes |
| `AppState.Store.ToggleFollow` | App.tsx:433 | only the followed set changes, by the toggle |
| `AppState.Store.ToggleSaved` | App.tsx:435 | only the saved set changes, by the toggle |
| `AppState.Store.ToggleLike` | App.tsx:434 | only the posts change, by the like toggle |
| `AppState.Store.AddComment` | App.tsx:436 | the signed-in user's comment is appended to the post |
| `AppState.Store.PromoteRequest` | App.tsx:439 | only the posts change, by the request |
| `AppState.Store.IncrementView` | App.tsx:170-184 | the posts gain the view, the table takes the queued credits computed from the old posts, and the session is re-synced |
| `AppState.Store.SendGift` | App.tsx:186-206 | returns the handler's outcome; the top-up dialog opens exactly on a short balance; nothing else changes unless the gift is sent, when balances move by the corrected transfer, the post takes the gift, and the session is re-synced |
| `AppState.Store.OpenTopUp` | App.tsx:437 | the top-up dialog opens |
| `AppState.Store.SelectTopUp` | App.tsx:448 | a pending top-up request is prepended and the dialog closes |
| `AppState.Store.SubmitWithdraw` | App.tsx:449 | a pending withdrawal request is prepended, no balance is taken, and the dialog closes |
| `RichEditor.CanPublishIff` | components/RichEditor.tsx:47 | publishing is allowed iff the title has a visible character and the content, with its tags removed, has one |
| `RichEditor.PlainTextPublishable` | components/RichEditor.tsx:47 | plain text with a visible character is publishable under a non-blank title |
| `RichEditor.EmptyParagraphRefused` | components/RichEditor.tsx:47 | content that is only markup, such as an empty paragraph, is refused |
| `RichEditor.AiAllowedIff` | components/RichEditor.tsx:24-27 | the assistant runs iff the text has at least 20 characters and a visible one |
| `RichEditor.Editor.constructor` | components/RichEditor.tsx:11-13 | the editor starts with an empty title and caption, not loading |
| `RichEditor.Editor.SetTitle` | components/RichEditor.tsx:74 | the title input stores the text |
| `RichEditor.Editor.SetCaption` | components/RichEditor.tsx:83 | the caption input stores the text |
| `RichEditor.Editor.Publish` | components/RichEditor.tsx:45-52 | it emits iff publishing is allowed, and then with the title, the raw HTML content and the caption unchanged |
| `RichEditor.Editor.BeginAiAssist` | components/RichEditor.tsx:22-29 | a refused text changes nothing; an allowed one raises the loading flag |
| `RichEditor.Editor.FinishAiAssist` | components/RichEditor.tsx:30-42 | a reply replaces title and caption, and loading ends; the failure branch, which keeps them, is the `catch`, which the generators' own fallbacks make unreachable |
| `AdminDashboard.Values` | components/AdminDashboard.tsx:56 | `Object.values` lists exactly the accounts' records |
| `AdminDashboard.FilteredUsers` | components/AdminDashboard.tsx:55-60 | the results are exactly the accounts whose lower-cased name or username includes the lower-cased query, and no more of them than there are accounts |
| `AdminDashboard.SearchIff` | components/AdminDashboard.tsx:55-60 | an account is a hit iff the lower-cased query occurs at some offset of its lower-cased name or username |
| `AdminDashboard.EmptyQueryListsAll` | components/AdminDashboard.tsx:55-60 | an empty query lists every account, in enumeration order |
| `AdminDashboard.SearchIgnoresQueryCase` | components/AdminDashboard.tsx:57-58 | lower-casing the query first changes no result |
| `AdminDashboard.BadgeIff` | components/AdminDashboard.tsx:80-94 | a tab's badge shows iff its queue is non-empty (users: sign-ups; finance: top-ups or withdrawals; promo: pending posts; reports); never for ads |
| `AdminDashboard.PromoteRequestShowsBadge` | components/AdminDashboard.tsx:82 | after a spotlight request the promotion tab shows a badge |
| `AdminDashboard.AdjustPanel.constructor` | components/AdminDashboard.tsx:52-53 | the panel starts with an empty amount, not busy |
| `AdminDashboard.AdjustPanel.SetAmount` | components/AdminDashboard.tsx:227 | the field stores the text |
| `AdminDashboard.AdjustPanel.ClickAdjust` | components/AdminDashboard.tsx:231-236 | callable only while enabled; with a callback the amount is passed and the field cleared; without one the panel stays busy with the amount kept; either way the button is disabled afterwards |
| `ProfileEditor.AvatarLimit` | components/ProfileEditor.tsx:24 | exactly 2 MiB is accepted and one byte more is refused |
| `ProfileEditor.SetField` | components/ProfileEditor.tsx:16-19 | only the named field takes the value; all others keep theirs |
| `ProfileEditor.StoredUsername` | components/ProfileEditor.tsx:117 | the stored username starts with `@` and is one character longer than the typed text |
| `ProfileEditor.UsernameRoundTrip` | components/ProfileEditor.tsx:116-117 | typing a value and reading the field back gives that value; a stored `@`-username is shown without the `@` and stored back unchanged |
| `ProfileEditor.DisplayRemovesFirstOnly` | components/ProfileEditor.tsx:116 | for every username with an `@`, the input shows what stands before the first `@` and everything after it, later `@`s included |
| `ProfileEditor.ProfileForm.constructor` | components/ProfileEditor.tsx:11-12 | the form starts as a copy of the user, not uploading |
| `ProfileEditor.ProfileForm.HandleChange` | components/ProfileEditor.tsx:16-19 | the form becomes the old form with the one field set |
| `ProfileEditor.ProfileForm.SelectFile` | components/ProfileEditor.tsx:21-29 | no file, or a file over 2 MiB, changes nothing; otherwise a read starts and the upload flag rises |
| `ProfileEditor.ProfileForm.FileLoaded` | components/ProfileEditor.tsx:31-34 | the avatar becomes the data URL, nothing else in the form changes, and the upload flag drops |
| `ProfileEditor.ProfileForm.EditUsername` | components/ProfileEditor.tsx:117 | the form stores `@` plus the typed text, and the field then shows the typed text |
| `ProfileEditor.ProfileForm.Submit` | components/ProfileEditor.tsx:43-46 | `onSave` receives the form exactly as it stands, and is called exactly when no file is being read (the button at line 148 is disabled then) and neither `required` input, the name (line 105) nor the shown username (line 120), is empty |

## Findings

| source | as written | input that shows it | evidently intended | confidence | as-written member | corrected member |
|---|---|---|---|---|---|---|
| App.tsx:191-195 | The sender's debit and the author's credit are both computed from the old table, and the author's key comes later in the literal. No card is given `currentUserId` (App.tsx:365, App.tsx:430-441), so the own-post guard at components/PostCard.tsx:183 never stops a gift to oneself. | A signed-in user with balance 100 gifts Bronze (price 10) to their own post. Their balance becomes 110. | A gift moves points and never creates them, so a gift to oneself leaves the balance unchanged. | not executed | `App.GiftBalances`, `App.SelfGiftMintsPoints` | `App.GiftTransfer`, `App.GiftTransferAgrees` |

## Left out

- `AppState.Store.SendGift` moves balances by the corrected `App.GiftTransfer`, not the source's update; see Findings. The two agree on every gift between different accounts.
- `AppState.Store.SendGift`: if the session's account is missing from the table, the source throws a TypeError on `prev[user.id].giftBalance`. The model reports this as the `SenderMissing` outcome and changes nothing.
- `AppState.Store.IncrementView`: the credits queued from inside the `map` callback are applied at once, in list order. React may run an updater twice in strict development mode; that is not modelled.
- `App.Synced`: the effect runs after the render that changed the table. Here it is applied at the end of the same handler.
- `AppState.Store.Login` takes the `CURRENT_USER` record of constants.ts as the parameter `admin`, and the accounts' enumeration order as `order`. The view switching that follows a login or logout (`setView`) is navigation and is not modelled.
- Lengths count Unicode code points, while `length` and `substring` in the source count UTF-16 units. The two differ only for characters outside the Basic Multilingual Plane: `Modals.Teaser`, `RichEditor.AiAllowed`.
- `toLowerCase` is modelled for ASCII letters only; other characters keep their case: `AdminDashboard.Matches`.
- `Object.values` order is the parameter `order`, constrained to list every key once.
- An account created by a credit to a missing id is `BlankUser` with that balance. In the source this record has no `name`, so the admin search would throw on it; the model's empty name makes it match only the empty query.
- Floating point is not modelled: balances are exact reals. This covers the view rate default 0.0001, `toFixed`, `toLocaleString`, `Number(...)` of the withdraw amount and `parseFloat` of the point-adjust text, which is passed on unparsed.
- services/geminiService.ts is not part of this model. Its title and caption reply is the `reply` parameter of `RichEditor.Editor.FinishAiAssist`. services/supabaseClient.ts is never called and is not modelled either.
- components/Notification.tsx, every `onNotify` and `alert` message, JSX, styling, `confirm()` dialogs, `navigator.share`, the clipboard, `FileReader` (its result is the `dataUrl` parameter), `document.execCommand` and the editor's `innerHTML`/`innerText` (passed in as strings) are presentation or browser I/O.
- The report, top-up package and ad editor dialogs in components/Modals.tsx are outside the modelled rules. Their outputs (a reason, a package's points and price, an ad record) are parameters.
- Manual point adjustment and user deletion are not in App.tsx, which never passes `onUpdatePoints` or `onDeleteUser`; only the panel's guard is modelled.
- `PostCard.Card.Expand` requires the expand control to be shown, because the control is not rendered once the body is expanded.
