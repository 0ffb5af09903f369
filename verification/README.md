# Unsplash gallery: feed, overlay and form rules in Dafny

This project models the three pieces of logic in the Unsplash gallery client
that make real decisions:

- **The photo feed** (`src/hooks/useFetchPhotos.ts`). The hook holds `photos`,
  `page`, `hasMore` and `loading`. One `fetchPhotos` call maps each raw API
  record to a `Photo` and appends the records whose id is not already in the
  feed. It then sets `hasMore` to whether the page was full (10 records) and
  advances `page`. On any error only `loading` is reset. The module is
  `Feed`, with the `Photo` record in `Photos`.
- **The gallery overlay** (`src/components/PhotoGallery/index.tsx`). This is
  a state machine over the selected photo, whether the overlay is shown,
  and the browser history. A click pushes `/photos/<slug>`. Closing replaces
  the current entry with `/photos`. A `popstate` event hides the overlay.
  The URL effect opens the first photo whose slug is the last path segment.
  The modules are `Gallery` and `BrowserHistory`.
- **The sign-up and log-in forms** (`src/pages/SignUp.tsx`,
  `src/pages/LogIn.tsx`). `Strength` covers the strength score, its label
  and the five-segment bar. `FormRules` covers the required, length and
  email-pattern rules of each field.

Everything is made of immutable datatypes and pure transition functions.
The HTTP response is an input (`Outcome`: the records, or a failure). The
browser history is an explicit value: a list of entries and a current index.
The URL effect is the explicit operation `Gallery.Resolve`.

A few facts about the code shape the model:

- `fetchPhotos` has no guard on `loading` or `hasMore`. It sets `loading`
  and fetches every time (`Feed.NoGuardOnFetch`).
- Its `catch` treats every failure alike and changes nothing but `loading`,
  so `Feed.Outcome` has a single `Failure`.
- The merge filters a batch only against the previous list, never against
  itself. Ids stay distinct only when each batch has distinct ids
  (`Feed.RunKeepsIdsDistinct`, `Feed.DuplicateInBatchSurvives`).
- Two overlapping calls both request the same `page`, because `page` only
  advances when a request completes. The first completion clears `loading`
  while the second is still out, and the two completions advance `page`
  twice, so the next page is never requested
  (`Feed.OverlappingFetchesSkipPage`).
- An unknown slug in the address bar leaves the gallery state unchanged
  (`Gallery.Resolve`).

## Model

| member | source | states |
|---|---|---|
| Feed.Init | src/hooks/useFetchPhotos.ts:6-9 | The feed starts empty, at page 1, with `hasMore` set and nothing loading. |
| Feed.ToPhoto | src/hooks/useFetchPhotos.ts:23-36 | The mapped photo keeps id, urls and slug (`alternative_slugs.en`) and takes its author from the user record. Title and description are equal: `description`, else `alt_description`, else empty, where null and empty both fall through. The topic is `topic_submissions.title`, else empty. |
| Feed.MapRecords | src/hooks/useFetchPhotos.ts:23-36 | The response maps to one photo per record, in response order, with ids and slugs kept. |
| Feed.Unseen | src/hooks/useFetchPhotos.ts:38-40 | The filtered batch is no longer than the batch. Each survivor comes from the batch and has an id absent from the previous list. |
| Feed.Merge | src/hooks/useFetchPhotos.ts:37-42 | The previous list is an unchanged prefix of the merged list. The merge grows the list by at most the batch length and adds only photos of the batch. |
| Feed.UnseenCounts | src/hooks/useFetchPhotos.ts:38-40 | A photo with an already-known id is dropped entirely. Any other photo keeps exactly its number of occurrences in the batch. |
| Feed.UnseenIsSubsequence | src/hooks/useFetchPhotos.ts:38-40 | The survivors keep the batch's order. |
| Feed.UnseenKeeps | src/hooks/useFetchPhotos.ts:38-40 | A batch photo whose id is new survives the filter. |
| Feed.UnseenAllNew | src/hooks/useFetchPhotos.ts:38-41 | When no batch id is known yet, the whole batch is appended, repeated ids included. |
| Feed.UnseenAllSeen | src/hooks/useFetchPhotos.ts:38-41 | When every batch id is already known, nothing is appended. |
| Feed.MergeAppendsUnseen | src/hooks/useFetchPhotos.ts:37-42 | The appended suffix is exactly the batch minus the known ids, in batch order, with batch multiplicities. |
| Feed.MergeKnowsBatch | src/hooks/useFetchPhotos.ts:37-42 | After a merge, every id of the batch occurs in the feed. |
| Feed.MergeIdempotent | src/hooks/useFetchPhotos.ts:38-41 | Merging the same batch twice gives the same list as merging it once. |
| Feed.UnseenDistinct | src/hooks/useFetchPhotos.ts:38-40 | Filtering a batch with distinct ids leaves distinct ids. |
| Feed.MergeDistinct | src/hooks/useFetchPhotos.ts:37-42 | A merge keeps ids distinct when both the previous list and the batch have distinct ids. |
| Feed.DuplicateInBatchSurvives | src/hooks/useFetchPhotos.ts:38-41 | A batch holding the same photo twice puts both copies into an empty feed, so distinct ids are lost. |
| Feed.BeginFetch | src/hooks/useFetchPhotos.ts:11-12 | Starting a fetch sets `loading` with no guard and leaves photos, page and `hasMore` alone. |
| Feed.CompleteFetch | src/hooks/useFetchPhotos.ts:37-50 | Completion always clears `loading`. On success the old photos stay a prefix, the appended suffix is exactly the mapped batch minus the records whose id was already present, the feed grows by at most the batch size, `hasMore` is set iff the response had exactly 10 records, and `page` goes up by one. On failure photos, page and `hasMore` are unchanged. |
| Feed.Fetch | src/hooks/useFetchPhotos.ts:11-50 | One whole call ends with `loading` false. On success the old photos stay a prefix, the appended suffix is exactly the mapped response minus the already-present ids, `hasMore` is set iff the response had 10 records, and `page` goes up by one. On failure only `loading` changes. |
| Feed.FetchLifecycle | src/hooks/useFetchPhotos.ts:11-50 | For a single outstanding request, `loading` is true while the request for the current page is out. It is false once the request completes, whether it succeeded or failed. |
| Feed.OverlappingFetchesSkipPage | src/hooks/useFetchPhotos.ts:11-50 | Two overlapping calls both request the current page. The first completion clears `loading` while the second is still out. After both complete, `page` has advanced by two, and a repeated response adds nothing to the feed. |
| Feed.FailureRetriesSamePage | src/hooks/useFetchPhotos.ts:45-50 | A failed fetch changes only `loading`, so the next call requests the same page. |
| Feed.FullStalePageKeepsFeedOpen | src/hooks/useFetchPhotos.ts:37-45 | A full page of already-known records leaves the photos unchanged, keeps `hasMore` true and still advances the page. `hasMore` counts records before deduplication. |
| Feed.ShortPageEndsFeed | src/hooks/useFetchPhotos.ts:37-44 | A page of fewer than 10 new records sets `hasMore` false. It grows the feed by exactly the page length. |
| Feed.TwoFullPagesKeepFeedOpen | src/hooks/useFetchPhotos.ts:44-45 | Two full pages in a row leave `hasMore` true and advance the page by two. |
| Feed.NoGuardOnFetch | src/hooks/useFetchPhotos.ts:11-45 | A success that arrives while another request is loading, or after `hasMore` turned false, is still merged and still advances the page. |
| Feed.RunGrowsFeed | src/hooks/useFetchPhotos.ts:37-47 | Over any sequence of fetches, the starting photos stay a prefix. The page rises by exactly the number of successes, and the last fetch leaves `loading` false. |
| Feed.RunKeepsIdsDistinct | src/hooks/useFetchPhotos.ts:37-42 | Starting from distinct ids, a sequence of fetches keeps ids distinct when every success batch has distinct ids. |
| BrowserHistory.Start | src/components/PhotoGallery/index.tsx:54-55 | A tab opened at a path has one entry, and that path is current. |
| BrowserHistory.Push | src/components/PhotoGallery/index.tsx:34 | `pushState` makes the new path current one entry further on and keeps the entries up to the old current one. The forward entries are dropped, so the history grows by one when the old entry was the last. |
| BrowserHistory.Replace | src/components/PhotoGallery/index.tsx:40 | `replaceState` makes the new path current. The index, the length and every other entry are unchanged. |
| BrowserHistory.Back | src/components/PhotoGallery/index.tsx:43-51 | The back navigation that fires `popstate` moves the index back by one and keeps the entries. |
| BrowserHistory.Forward | src/components/PhotoGallery/index.tsx:43-51 | The forward navigation that fires `popstate` moves the index forward by one and keeps the entries. |
| BrowserHistory.PushThenBack | src/components/PhotoGallery/index.tsx:34 | Back after a push returns to the entry that was current before it. Forward then restores the pushed state exactly. |
| Gallery.Init | src/components/PhotoGallery/index.tsx:21-22 | The component starts with no selection and the overlay hidden, at the tab's path. |
| Gallery.Click | src/components/PhotoGallery/index.tsx:31-35 | A click selects the photo and shows the overlay. It makes `/photos/<slug>` current as a new entry after the old current one, growing the history by one when there were no forward entries. |
| Gallery.Close | src/components/PhotoGallery/index.tsx:37-41 | Closing clears the selection and hides the overlay. It replaces the current entry with `/photos` and leaves the index, the length and the other entries unchanged. |
| Gallery.PopState | src/components/PhotoGallery/index.tsx:44-47 | The popstate handler hides the overlay. It leaves the selection and the history untouched. |
| Gallery.GoBack | src/components/PhotoGallery/index.tsx:43-51 | Back with an earlier entry moves there and hides the overlay while keeping the selection. With no earlier entry nothing changes. |
| Gallery.GoForward | src/components/PhotoGallery/index.tsx:43-51 | Forward with a later entry moves there and hides the overlay while keeping the selection. With no later entry nothing changes. |
| Gallery.LastSegment | src/components/PhotoGallery/index.tsx:56 | `split('/').pop()` returns the longest suffix of the path that has no `/`. The character before it, if any, is `/`. |
| Gallery.FindSlug | src/components/PhotoGallery/index.tsx:59 | `find` returns the index of the first photo carrying the slug. It returns nothing exactly when no photo carries it. |
| Gallery.Resolve | src/components/PhotoGallery/index.tsx:54-64 | When some photo carries the last path segment as its slug, the first such photo is selected and shown. Otherwise the state is unchanged. The history is never touched, and the invariant is kept. |
| Gallery.Step | src/components/PhotoGallery/index.tsx:31-64 | Every event (click, close, back, forward, URL check) keeps the invariant: the overlay is shown only with a selection. |
| Gallery.Run | src/components/PhotoGallery/index.tsx:21-64 | Every sequence of events from a state with the invariant ends in a state with the invariant. |
| Gallery.ReachableOverlay | src/components/PhotoGallery/index.tsx:117 | In every reachable state the overlay is rendered iff `showModal` is set. |
| Gallery.LastSegmentOfJoin | src/components/PhotoGallery/index.tsx:34-56 | The last segment of `prefix/slug` is the slug when the slug has no `/`. |
| Gallery.ClickThenResolve | src/components/PhotoGallery/index.tsx:31-63 | For a slug of ASCII letters, digits, `-` and `_` (one the URL path keeps unchanged), the deep link a click pushes names the clicked photo's slug. Resolving it against a feed that contains the photo shows a photo with that slug and leaves the history alone. |
| Gallery.ClickCloseResolve | src/components/PhotoGallery/index.tsx:34-63 | After a click and a close, the current location is `/photos` on the pushed entry. Resolving it changes nothing unless some photo's slug is literally `photos`. |
| Gallery.BackAfterClick | src/components/PhotoGallery/index.tsx:31-47 | Back after a click returns to the earlier address and hides the overlay, but the clicked photo stays selected. |
| Gallery.ResolveKnownSlug | src/components/PhotoGallery/index.tsx:54-63 | On the feed `sunset, dawn`, `/photos/dawn` selects and shows the second photo. |
| Gallery.ResolveUnknownSlug | src/components/PhotoGallery/index.tsx:54-63 | On the same feed, `/photos/unknown-slug` leaves the state exactly as it was. |
| Strength.Score | src/pages/SignUp.tsx:32-40 | The score is a multiple of 20 between 0 and 120. Below four characters it is at most 40. |
| Strength.ScoreCountsCriteria | src/pages/SignUp.tsx:33-40 | The score is 20 times the number of satisfied criteria: length at least 4, 8 and 12; an uppercase letter with length at least 4; a digit; a character outside `[A-Za-z0-9]`. |
| Strength.Label | src/pages/SignUp.tsx:44-56 | A label is chosen for every score except a negative one. The label is empty exactly for score 0. |
| Strength.LabelByCriteria | src/pages/SignUp.tsx:44-56 | A password's label is, by number of satisfied criteria: none gives empty, then "Too weak", "Could be better", "Ok", "Strong", and five or six give "Very strong". |
| Strength.CalculateStrength | src/pages/SignUp.tsx:32-57 | The meter's percentage is 20 per satisfied criterion and its text is the label for that count. The text is empty iff the percentage is 0. |
| Strength.MountedMeterIsBlank | src/pages/SignUp.tsx:59-61 | Scoring the empty password on mount leaves the meter at 0 with an empty label. |
| Strength.ShortUpperEarnsNothing | src/pages/SignUp.tsx:38 | An uppercase letter below four characters earns nothing: `Ab` scores 0 with the empty label. |
| Strength.ExtensionKeepsClasses | src/pages/SignUp.tsx:38-40 | An uppercase letter, digit or special character in a password is still there after more characters are typed. |
| Strength.ScoreMonotone | src/pages/SignUp.tsx:35-40 | Appending characters never lowers the score. |
| Strength.LitBars | src/pages/SignUp.tsx:149-153 | Of the first `k` segments, those lit are the ones below the percentage. The count is 0 for a percentage of at most 0, and `min(k, ceil(percentage/20))` otherwise. |
| Strength.LitBarsOfScore | src/pages/SignUp.tsx:149-153 | For a password's score, the number of lit segments is `min(5, score/20)`, which is the number of satisfied criteria capped at five. |
| Strength.LitBarsArePrefix | src/pages/SignUp.tsx:152 | When a segment is lit, every segment before it is lit. |
| FormRules.CheckUsername | src/pages/SignUp.tsx:84 | A username is accepted iff it has 1 to 50 characters. Empty gives "Username is required", and over 50 gives "Max length is 50". |
| FormRules.CheckEmail | src/pages/SignUp.tsx:107-113 | An email is accepted iff it is non-empty, has no whitespace, and has an `@` with a character on each side. Empty gives "Email is required", and anything else rejected gives "Email is not valid". The log-in form uses the same rule. |
| FormRules.CheckSignUpPassword | src/pages/SignUp.tsx:132 | A sign-up password is accepted iff it has at least 3 characters. Empty fails `required` and 1-2 characters fail `minLength`, both with an empty message. |
| FormRules.CheckLogInPassword | src/pages/LogIn.tsx:77 | A log-in password is accepted iff it has at least 3 characters. Empty gives "Password is required", and 1-2 characters give "Password must be at least 3 characters". |
| FormRules.EmailPatternIsShape | src/pages/LogIn.tsx:55 | `/^\S+@\S+$/i` matches exactly the strings with no whitespace and some `@` that has a character on each side. Extra `@`s are allowed. |
| FormRules.EmailExamples | src/pages/LogIn.tsx:52-57 | `a@b` and `a@b@c` pass. `@b`, `a@` and `a b@c` fail the pattern, and the empty string fails `required`. |

## Left out

- The HTTP request to the Unsplash API, its parameters and the access key are not modelled. The response is the `Outcome` input.
- The log-in POST and the sign-up submit handler are left out. They only call a server or log to the console.
- A `fetchPhotos` closure from an older render may carry an older `page`. That is not modelled: each call requests the state's `page` at the moment it starts.
- The URL effect re-running whenever `photos` or `selectedPhoto` change is not modelled. React schedules it; here `Gallery.Resolve` is an event the caller issues.
- BrowserHistory.Current: an entry is the path string as passed to `pushState`/`replaceState`. The browser's URL parsing behind `location.pathname` (percent-escaping, cutting at `?` or `#`, resolving `.` and `..`) is not modelled.
- Gallery.ClickThenResolve: holds only for slugs of ASCII letters, digits, `-` and `_`, which the URL path keeps unchanged; other slugs go through URL serialization, which is not modelled (Unsplash slugs are of this form).
- Gallery.Run: the component is modelled as always mounted. src/App.tsx:13-23 mounts `PhotoGallery` only at the route `/photos`, so in the routed app a tab opened at `/photos/<slug>` and a back or forward move onto a `/photos/<slug>` entry do not reach the component. There the router unmounts it and its selection is lost, unlike the kept selection of Gallery.GoBack, Gallery.GoForward and the tab of Gallery.ResolveKnownSlug. Routing is out of scope.
- InfiniteScroll's own `hasMore` gating, the Masonry layout, icons and all styling are left out as presentation.
- react-hook-form internals are out beyond the rule order: `required` on the empty string first, then `maxLength`, `minLength` and `pattern` on non-empty values.
- Feed.ToPhoto: the date is kept as the raw `updated_at` text, since `new Date(...)` parsing and locale formatting are out of scope. `likes` is kept as a number.
- Feed.ToPhoto: `alternative_slugs.en` is assumed present. A missing slug (JavaScript `undefined`) is not modelled.
- Feed.ToPhoto: the topic is the fixed property `title` of `topic_submissions`, read directly at src/hooks/useFetchPhotos.ts:32 with the `|| ''` fallback; the other fields of `topic_submissions` are not modelled.
- Strength.Score: lengths count Unicode scalar values, not UTF-16 code units as JavaScript `length` does.
- FormRules.CheckUsername: the 50-character limit counts Unicode scalar values, not UTF-16 code units.
- FormRules.CheckSignUpPassword: the 3-character minimum counts Unicode scalar values, not UTF-16 code units.
- FormRules.CheckLogInPassword: the 3-character minimum counts Unicode scalar values, not UTF-16 code units.
- Feed.FetchLifecycle: covers one outstanding request only. With overlapping calls `loading` is cleared by the first completion; `Feed.OverlappingFetchesSkipPage` states that case.
- The show-password toggle, navigation between the forms, the auth context, the profile and not-found pages, the download and theme buttons, and the photo detail view are left out. They are presentation, storage or navigation only.
