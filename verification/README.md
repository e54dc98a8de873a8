# Målerjakt: the client-side rules, modelled in Dafny

Målerjakt is a web app for reporting moth sightings. A visitor photographs a
moth, the browser attaches its position, and the observation is uploaded. A
copy is also kept in the device's `localStorage`. The history page merges
those local copies with the server's list. Administrators approve or reject
submissions, and the map shows every observation that has usable
coordinates.

This project models the rules that sit between the user interface and the
backend, one module per source file:

- `Validation` (`lib/validation.ts`):
  - the coordinate and comment checks of `validateObservationData`;
  - `sanitizeInput`, together with the ECMAScript `trim` it relies on;
  - the size, type and dimension checks of `validateImageFile`.
- `LocalStorage` (`lib/local-storage.ts`): the on-device history store. It is
  a key→value map threaded through the functions. On the server there is no
  store, and every write fails.
- `History` (`components/history/history-content.tsx`), covering
  `loadObservations` and the accuracy labels:
  - the local and remote observations are combined;
  - they are stably sorted newest first;
  - a left fold then de-duplicates them, preferring remote copies.

  The fold is proved equal to an independent head-recursive reference
  definition.
- `Submissions` (`components/admin/submissions-list.tsx`): the admin status
  filter and the state changes made by `updateStatus`. The handler is split
  at its `await` into `BeginUpdate` and `CompleteUpdate`, so that other
  handlers can run in between.
- `ObservationMap` (`components/map/observation-map.tsx`): the truthiness-based
  coordinate filter.
- `Api` (`lib/api.ts`):
  - the data-URL checks, the form fields and the response handling of
    `submitObservation`;
  - the row mapping of `fetchObservations`;
  - the JavaScript `split`/`join` they rely on.
- `Gallery` (`app/gallery/page.tsx`): `validateForm`, `handleCommentChange` and
  `handleSubmit`.
- `Environment` (`lib/env.ts`) and `AuthHelpers` (`lib/supabase/auth-helpers.ts`):
  - the site-URL fallback chain and the `https://` prefixing;
  - the mode checks;
  - the redirect URLs.
- `Middleware` (`middleware.ts`): the admin route guard.
- `StorageCheck` and `StorageProvider` (`hooks/use-storage.ts`,
  `components/storage-provider.tsx`): the low-storage threshold. Both files
  contain the same rule, so it is modelled twice and proved to agree.
- `Translation` (`hooks/use-translation.ts` over `lib/translations.ts`): the
  `t(key)` lookup with key fallback, over both tables.

Shared modules:

- `Wrappers` holds `Option` and `Result`.
- `Model` holds the observation record and the history entry.
- `Seqs` holds a generic filter, the prefix test and the subsequence relation.
- `Flows` states properties that follow one observation across modules: from
  the gallery form into the offline history, and from the upload form fields
  through the database row to the map and the accuracy badge.

How JavaScript values are represented:

- A coordinate that may be `null`, `undefined` or `NaN` is an `Option<real>`.
- Timestamps are integers. Date parsing is abstracted away.
- Outcomes that come from outside, such as a server reply or the clock, are
  parameters. A reply that may instead throw (a rejected `fetch`, a body that
  is not JSON) is a `Result` whose failure carries the message thrown.
- JavaScript's `length` counts UTF-16 code units, so comment lengths are
  measured with `Utf16Length`, where a character outside the Basic
  Multilingual Plane counts twice.

## Model

| member | source | states |
|---|---|---|
| Validation.ValidateObservationData | lib/validation.ts:71-96 | A latitude error appears iff a latitude is given and lies outside [-90, 90]. A longitude error appears iff a longitude is given and lies outside [-180, 180]. A comment error appears iff a comment is longer than 1000 UTF-16 code units. `isValid` iff there are no errors. There are at most three errors, in the order latitude, longitude, comment. |
| Validation.Utf16Length | lib/validation.ts:88 | `length` counts UTF-16 code units: at least one and at most two per character. |
| Validation.Utf16LengthAstral | lib/validation.ts:88 | Text made only of characters outside the Basic Multilingual Plane, such as emoji, has twice as many code units as characters. |
| Validation.FailedChecks | lib/validation.ts:79-90 | Each message is present iff its check failed. There are at most three, in the order latitude, longitude, comment. |
| Validation.BoundaryValuesAccepted | lib/validation.ts:79-90 | The bounds are inclusive: ±90, ±180 and a comment of exactly 1000 UTF-16 code units pass. One more character yields exactly the comment error. |
| Validation.AstralCommentRejected | lib/validation.ts:88-90 | A comment of 501 emoji, 1002 code units, is rejected with exactly the comment error. |
| Validation.Trim | lib/validation.ts:99 | `trim` returns a contiguous slice of its input. That slice neither starts nor ends with ECMAScript white space. |
| Validation.TrimFixesTrimmed | lib/validation.ts:99 | Text that neither starts nor ends with white space is its own trim. |
| Validation.SanitizeInput | lib/validation.ts:98-100 | The output contains no `<` or `>`. It is never longer than the input. It is a subsequence of the trimmed input. Every other character occurs in it exactly as many times as in the trimmed input. |
| Validation.SanitizeTwiceOnlyTrims | lib/validation.ts:98-100 | Sanitising a sanitised string only trims it again. |
| Validation.SanitizeFixesCleanText | lib/validation.ts:98-100 | A string with no angle brackets and no outer white space is returned unchanged. |
| Validation.SanitizeNotIdempotent | lib/validation.ts:98-100 | `"< a"` sanitises to `" a"`, and that sanitises to `"a"`. Sanitising is not idempotent because trimming happens before deletion. |
| Validation.RoundToMiB | lib/validation.ts:25-26 | The megabytes in the size error are the nearest whole MiB, with halves rounded up, as in `Math.round`. |
| Validation.SizeCheck | lib/validation.ts:24-27 | A size error arises iff the size exceeds the maximum, and it reports both in whole MiB. |
| Validation.TypeCheck | lib/validation.ts:30-32 | A type error arises iff the type is not allowed, and it lists the allowed types. |
| Validation.DimensionCheck | lib/validation.ts:35-44 | An image that cannot be loaded gives the unreadable error. A loaded one gives an error iff a side is below its minimum, carrying the minimums and the actual size. |
| Validation.CollectErrors | lib/validation.ts:14-48 | The errors are those of the checks that failed, one each, in the order size, type, dimensions. |
| Validation.ValidateImageFile | lib/validation.ts:13-50 | Each error kind is reported iff its condition holds: size above the maximum (default 10 MiB), type outside the allowed list, unreadable dimensions, or a side below the minimum (default 100). Each holding condition adds exactly one error, in the order size, type, dimensions. The size error carries both sizes in whole MiB, the type error the allowed list, and the dimension error the minimums and the actual size. `isValid` iff there are no errors. |
| Validation.DefaultSizeLimitInclusive | lib/validation.ts:16-32 | Under the defaults, a file of exactly 10 MiB passes the size check and one byte more fails it. An unsupported type with good dimensions yields exactly one error. |
| Validation.GifRejectedOnce | lib/validation.ts:30-32 | An empty gif of 100×100 pixels under the defaults yields exactly the type error listing the default types. |
| Validation.OversizeReportedInMiB | lib/validation.ts:24-26 | A file of 15.4 MiB under the defaults is reported first, as 15 MiB against a limit of 10 MiB. |
| LocalStorage.GetLocalObservations | lib/local-storage.ts:32-42 | The result is `[]` on the server, when the key is absent and when the stored text does not parse. Otherwise it is the stored list. |
| LocalStorage.SaveLocalObservation | lib/local-storage.ts:16-30 | Saving fails exactly on the server. Otherwise the list read back is the new observation followed by the old list, and no other key changes. |
| LocalStorage.RemoveLocalObservation | lib/local-storage.ts:53-62 | Removing fails exactly on the server. Otherwise every observation with another id keeps exactly its number of occurrences, none with the id remains, the rest keep their order, and no other key changes. |
| LocalStorage.ClearLocalObservations | lib/local-storage.ts:44-51 | Clearing fails exactly on the server. Otherwise it removes the key and only that key. |
| LocalStorage.ClearThenGetIsEmpty | lib/local-storage.ts:36-47 | After a clear, the history reads back empty. |
| LocalStorage.SaveGrowsByOne | lib/local-storage.ts:19-25 | A save never de-duplicates: the list grows by exactly one, the new observation comes first, and the old list follows unchanged. |
| LocalStorage.RemoveAbsentIsIdentity | lib/local-storage.ts:55-57 | Removing an id that is not stored leaves the list unchanged. |
| LocalStorage.RemoveUndoesSave | lib/local-storage.ts:16-62 | Saving an observation with a fresh id and then removing that id restores the previous list. |
| History.SortNewestFirst | components/history/history-content.tsx:81-83 | The sorted list is ordered by descending timestamp and is a permutation of its input. |
| History.SortIsStable | components/history/history-content.tsx:81-83 | Entries with equal timestamps keep their relative order. |
| History.DedupeMatchesReference | components/history/history-content.tsx:86-96 | The `reduce` keeps its invariant: ids are unique, they are the combined list's ids in order of first occurrence, and each kept entry is the preferred one for its id. The preferred entry is the first remote entry if any, else the first entry. |
| History.DedupeCharacterization | components/history/history-content.tsx:86-96 | The de-duplicated list has unique ids, exactly the input's ids in first-occurrence order, and each entry is the preferred entry for its id. |
| History.LoadHistory | components/history/history-content.tsx:51-98 | The shown ids are exactly the ids of the stably sorted combined list, once each, in order of first occurrence. Each shown entry is the preferred entry for its id in that list. A local entry comes from the device store. A remote entry appears only when online and the fetch succeeded. |
| History.OfflineShowsOnlyLocal | components/history/history-content.tsx:59-78 | Offline, or when the fetch throws, only local observations are shown. |
| History.EveryStoredIdShown | components/history/history-content.tsx:51-96 | Online or offline, and whether or not the fetch throws, every stored observation's id is shown. |
| History.HistoryKeepsEveryIdPreferringRemote | components/history/history-content.tsx:81-96 | Every id from either list is shown. An id that exists remotely is shown with a remote copy. |
| History.HistoryNotAlwaysNewestFirst | components/history/history-content.tsx:81-96 | A remote copy takes over its local twin's slot, so the shown list need not be newest first. One concrete merge is shown to end older entry first. |
| History.NewestHeadStaysFirst | components/history/history-content.tsx:81-83 | An entry that comes first and is at least as new as every other stays first after the stable sort. |
| History.LocalHeadKeptFirst | components/history/history-content.tsx:86-96 | Without remote entries, de-duplication keeps the first entry in front. |
| History.OfflineNewestShownFirst | components/history/history-content.tsx:51-98 | Offline, an observation stored first that is at least as new as every stored one is shown first, as a local entry. |
| History.GetLocationAccuracy | components/history/history-content.tsx:141-146 | The label is "Very accurate" iff the accuracy is below 10, "Accurate" iff it is in [10, 50), "Moderate" iff it is in [50, 100), and "Low accuracy" otherwise. |
| History.AccuracyLabelMonotone | components/history/history-content.tsx:141-146 | A larger accuracy radius never yields a better label: a "Very accurate" radius has only "Very accurate" radii below it, and above a "Moderate" one there is only "Moderate" or "Low accuracy", and above "Low accuracy" only "Low accuracy". |
| History.AccuracyBadge | components/history/history-content.tsx:242-246 | An accuracy of 0 renders the stray text "0", since `0 && …` is the number 0. Any other accuracy renders the badge with its label. |
| History.ZeroAccuracyShowsZero | components/history/history-content.tsx:242-246 | An accuracy of exactly 0 shows "0" where an accuracy below 10 metres shows "Very accurate". |
| Submissions.FilteredObservations | components/admin/submissions-list.tsx:115 | "all" shows the whole list. Any other filter shows exactly the observations with that status, each as often as in the full list, in their original order. |
| Submissions.SetStatus | components/admin/submissions-list.tsx:86 | The length is preserved. Observations with the given id get the new status and nothing else changes. |
| Submissions.BeginUpdate | components/admin/submissions-list.tsx:76 | The updating flag for the id is raised. Every other flag, the list and the dialog are unchanged. |
| Submissions.CompleteUpdate | components/admin/submissions-list.tsx:82-111 | After the call settles, the flag for the id is lowered and other flags are kept. On success, the current list gets the new status for exactly that id; on failure, the list and dialog are unchanged. The dialog is closed iff one is open and the call succeeded and the selection captured when the handler started has the id. |
| Submissions.StaleSelectionClosesLaterDialog | components/admin/submissions-list.tsx:94-96 | If the updated observation's dialog was open when the update started, success closes whatever dialog is open when the call returns, even one opened for another observation meanwhile. |
| Submissions.OverlappingUpdatesShareFlag | components/admin/submissions-list.tsx:76-111 | Two overlapping updates of one observation share a flag: the first to finish lowers it while the second is still pending. |
| Submissions.UpdateStatus | components/admin/submissions-list.tsx:74-113 | When no other handler runs during the call: the flag for the id ends lowered whatever the outcome, and other flags are kept. A failed call changes neither the list nor the dialog. A successful one sets the status of exactly the observations with the id. The dialog is closed iff the call succeeded and the selected observation has the updated id. |
| Submissions.UpdatedObservationMovesFilter | components/admin/submissions-list.tsx:86-115 | After a successful update, the updated observations appear under the new status's filter and not under any other status. |
| Submissions.UpdateIsIdempotent | components/admin/submissions-list.tsx:86-96 | Applying the same successful update twice gives the same list and dialog as once. |
| ObservationMap.MappableObservations | components/map/observation-map.tsx:54-61 | The map list is a subsequence of the fetched list. It holds exactly the observations whose latitude and longitude are both present, non-NaN and non-zero, each as often as it was fetched. |
| ObservationMap.LoadMapObservations | components/map/observation-map.tsx:51-70 | A failed fetch leaves the shown list as it was. A successful one shows the fetched observations that have map coordinates, each as often as it was fetched, in order. |
| ObservationMap.ZeroOrMissingCoordinateHidden | components/map/observation-map.tsx:56-60 | A fetched observation is hidden iff a coordinate is missing, NaN or exactly 0. |
| Api.JoinSplit | lib/api.ts:31 | Joining the pieces of a `split` with the same separator restores the string. |
| Api.SplitJoin | lib/api.ts:31 | Splitting a join of separator-free pieces gives the pieces back. |
| Api.ExtractBase64 | lib/api.ts:25-35 | An image without the `data:image/` prefix is rejected with the format error. A prefixed image is accepted iff the second comma-separated piece exists and is non-empty, and is otherwise rejected with "Could not extract base64 data from image". An accepted payload is non-empty and comma-free, and it is exactly the text between the first comma and the next comma or the end. |
| Api.DataUrlRoundTrip | lib/api.ts:25-35 | A prefixed header, a comma, a non-empty comma-free payload and anything that is empty or starts with a further comma yield that payload. |
| Api.DataUrlExamples | lib/api.ts:29-33 | `data:image/x,AB,C` uploads `AB`, and `data:image/x,` is refused with the extraction error. |
| Api.CoordinateField | lib/api.ts:58-60 | A missing geolocation sends the text "0". Otherwise the number's text is sent. |
| Api.FieldNumber | app/api/upload/route.ts:24-26 | The route reads back a number's text as that number and "0" as 0. |
| Api.CoordinateFieldReadsBack | lib/api.ts:58-60 | Every coordinate field reads back as a number: the device's when a position was given, and 0 otherwise. |
| Api.SubmitObservation | lib/api.ts:20-81 | A bad prefix fails with the format error and an empty payload with the extraction error; nothing is sent in either case. An undecodable payload is not sent either. A form is sent iff the payload is extracted and decodes. It carries the comment and timestamp unchanged. Its coordinate fields are each number's text when a geolocation is given, and "0" otherwise. A rejected call fails with the message thrown. A non-OK reply fails with the server's error text, or "Upload failed" if there is none. Success happens iff the form was sent and the reply is OK, and returns the reply's id and image URL. |
| Api.ValidDataUrlIsUploaded | lib/api.ts:20-72 | A data URL with the image prefix and a non-empty, decodable payload is sent, and an OK reply returns its id and image URL. |
| Api.MapRow | lib/api.ts:110-122 | `id`, `comment`, `status` and the coordinates are copied. The timestamp comes from `created_at` and the image URL from `image_url`. The accuracy is 0 iff the row's accuracy is null or 0, and is copied otherwise. |
| Api.MapRowRoundTrip | lib/api.ts:110-122 | Mapping loses nothing except the difference between a null accuracy and a 0 accuracy. |
| Api.FetchObservations | lib/api.ts:84-127 | A query error is rethrown. Otherwise the rows are mapped one for one, in order. |
| Gallery.ValidateForm | app/gallery/page.tsx:64-88 | The form is accepted iff there are no errors. The image error appears iff the preview or the file is missing, and then it comes first. The location error appears iff there is no position, right after the image error if any, and then no coordinate error can arise. The observation errors, with the comment measured in UTF-16 code units, follow the form's own errors. |
| Gallery.OwnErrors | app/gallery/page.tsx:65-73 | The page's own messages appear iff their checks fail, the image message before the location message, and they are never coordinate messages. |
| Gallery.FormAcceptedIff | app/gallery/page.tsx:64-88 | The form is accepted exactly when an image and a position are present, both coordinates are in range and the comment has at most 1000 UTF-16 code units. |
| Gallery.OwnChecksApart | app/gallery/page.tsx:64-88 | The page's image and location messages never appear among the observation check's messages. |
| Gallery.HandleCommentChange | app/gallery/page.tsx:175-180 | An edit of at most 1000 UTF-16 code units replaces the comment. A longer edit is ignored. |
| Gallery.EditsNeverExceedLimit | app/gallery/page.tsx:175-180 | However many edits arrive, the comment never exceeds 1000 UTF-16 code units. |
| Gallery.HandleSubmit | app/gallery/page.tsx:90-173 | An upload is sent iff the form is accepted. A rejected form shows its errors and changes nothing else. The sent form carries the sanitised comment, the submission time and the position. A rejected call or a non-OK reply saves nothing. A rejected call shows the message thrown. `INVALID_IMAGE` or `INVALID_DATA` shows `details`, or `[error]`. Any other non-OK reply shows the error text or "Upload failed". An OK reply on the server, where nothing can be saved, ends in a failure. An OK reply in the browser puts the saved observation in front of the stored list, which is otherwise unchanged, and changes no other stored key. |
| Gallery.SavedObservation | app/gallery/page.tsx:143-150 | The kept observation has the reply's id, the sanitised comment, the submission time, status Pending and the position's coordinates. Its image URL is the reply's, or the preview when the reply has none. |
| Flows.SubmittedObservationHeadsOfflineHistory | app/gallery/page.tsx:143-150 | After a successful submission, when nothing stored is newer, the offline history shows the new observation first: a local entry with the reply's id, the sanitised comment and status Pending. |
| Flows.SubmittedCoordinatesReadBack | lib/api.ts:58-60 | A given position survives the upload fields and the row mapping, and a non-zero accuracy gets its label as a badge. A submission without a position is stored at (0, 0) with accuracy 0: it is not mapped, and its history card shows a stray "0" instead of a badge. |
| Environment.GetEnv | lib/env.ts:4-9 | The variable's value is returned when it is set and non-empty. Otherwise the fallback is returned. |
| Environment.ConfiguredUrl | lib/env.ts:14 | `NEXT_PUBLIC_SITE_URL` wins over `NEXT_PUBLIC_APP_URL`, which wins over `NEXT_PUBLIC_VERCEL_URL`. Empty values are skipped. |
| Environment.WithProtocol | lib/env.ts:16-21 | The result starts with "http". `https://` is prepended iff the value does not already start with "http". |
| Environment.WithProtocolIdempotent | lib/env.ts:16-21 | Prefixing twice is the same as prefixing once. |
| Environment.GetSiteUrl | lib/env.ts:12-31 | A configured URL is used, prefixed when needed. Without one, the window's protocol + "//" + host is used. Without a window, the result is `https://mothapp.vercel.app`. |
| Environment.HttpPrefixedHostLeftAlone | lib/env.ts:14-21 | `httpbin.org` is returned unprefixed. A bare host name gets `https://`. |
| Environment.IsDevelopment | lib/env.ts:34-36 | True iff `NODE_ENV` is "development". |
| Environment.IsProduction | lib/env.ts:39-41 | True iff `NODE_ENV` is "production". |
| Environment.ModesExclusive | lib/env.ts:34-41 | The two modes are never both on, and any other `NODE_ENV` turns both off. |
| AuthHelpers.StripLeadingSlash | lib/supabase/auth-helpers.ts:19 | Exactly one leading `/` is removed, if present. |
| AuthHelpers.GetRedirectUrl | lib/supabase/auth-helpers.ts:17-21 | The URL is the site URL, then `/`, then the requested path with one leading slash removed. The default path is `auth/callback`. |
| AuthHelpers.InviteRedirect | lib/supabase/auth-helpers.ts:5-7 | The invitation redirect is the site URL followed by `/auth/callback`. |
| AuthHelpers.DefaultIsInviteCallback | lib/supabase/auth-helpers.ts:7-20 | The default redirect URL equals the invitation's `redirectTo`. |
| AuthHelpers.LeadingSlashIgnored | lib/supabase/auth-helpers.ts:19-20 | `"/p"` and `"p"` give the same URL unless `p` itself starts with `/`. `"//x"` keeps one slash. |
| Middleware.Middleware | middleware.ts:6-24 | A request is redirected iff there is no session, the path starts with `/admin`, and the path is not `/admin/login`. The target is always `/admin/login`. |
| Middleware.NoRedirectLoop | middleware.ts:15-21 | The redirect target is never redirected again, and a signed-in request always passes through. |
| StorageCheck.AvailableSpace | hooks/use-storage.ts:13 | A missing or zero quota gives 0. Otherwise the result is the quota minus the usage, with missing usage counted as 0. |
| StorageCheck.CheckStorage | hooks/use-storage.ts:6-20 | An absent or throwing estimate API keeps the flag. Otherwise the flag is true iff the available space is above 50 MiB. |
| StorageCheck.ThresholdBoundary | hooks/use-storage.ts:13-16 | Exactly 50 MiB counts as low, one byte more does not, and a missing or zero quota is always low. |
| StorageProvider.ProviderCheckStorage | components/storage-provider.tsx:14-28 | The same rule as the hook: the flag is kept when the API is absent or throws, a missing or zero quota gives false, and otherwise the flag is true iff the available space is above 50 MiB. |
| StorageProvider.ProviderAgreesWithHook | components/storage-provider.tsx:21-24 | The provider's rule agrees with the hook's on every input. |
| Translation.Translate | hooks/use-translation.ts:9-11 | A key with a non-empty value in the current language's table is translated. Any other key is returned as itself. Names inherited from `Object.prototype` are not told apart from other undefined keys (see Left out). |
| Translation.FallbackIndependentOfLanguage | lib/translations.ts:2-106 | Both tables define the same keys, so a key falls back in one language iff it falls back in the other, and iff it is undefined. |
| Translation.AdminKeysUntranslated | hooks/use-translation.ts:10 | "submissions", "statistics" and "export" are not in the tables and render as themselves. |
| Translation.DefinedKeyTranslated | lib/translations.ts:7-60 | "history" renders as "History" in English and as "Historikk" in Norwegian. |

## Left out

- `lib/exif.ts` is a timer stub. It contains no decoder to model.
- Network calls are not modelled as code. These include the Supabase queries, `fetch("/api/upload")`, `updateObservationStatus` and the estimate API. Each one's outcome is a parameter: a `Result`, a reply record, or a success flag.
- `atob`, inside `decode`, is not modelled. Whether the payload decodes is a parameter.
- Number-to-text conversion (`toString`) is kept symbolic as `NumberText(x)`. Floating-point formatting is not modelled.
- Floating-point arithmetic is modelled with exact reals. `NaN` coordinates are folded into `None`. Infinity is not modelled.
- JSON encoding and parsing of the stored history are abstracted. Text that does not parse is modelled as `Corrupt`. Stored JSON that parses to something other than an array is not modelled.
- A quota error thrown by `localStorage.setItem` in a browser is not modelled. In the model, writes fail only on the server.
- `Date` parsing and `toISOString` are abstracted: timestamps are integers, and the clock is a parameter.
- `deviceInfo` is not modelled. It is sent and stored but never inspected.
- The "(±…m)" span in the history dialog uses the same `accuracy && …` test as the badge and would also show a stray "0". It is not modelled because it formats the number with `toFixed`.
- The image checks report typed errors (`FileError`) instead of the English sentences the source builds.
- A missing `error` field in a server reply is modelled as the empty string. This is the same under `||`. In the `[result.error]` branch of `handleSubmit`, however, the source would list `undefined` where the model lists "".
- `getImageDimensions` loads the image in the browser. Its outcome is the `dims` parameter of `ValidateImageFile`.
- The middleware's `matcher` configuration, the session lookup and URL construction are not modelled. The guard takes a session flag and a path.
- The delayed `loadObservations` reload after a status update in the admin list is a timer, so it is not modelled.
- Toasts, loading flags other than the per-id updating flag, form resets and navigation are UI only, and are not modelled.
- `components/language-provider` is not part of this model. The current language is a parameter of `Translate`.
- Translation.Translate: a key such as "constructor" or "toString", inherited from `Object.prototype`, makes the source's lookup return a function rather than the key. The model treats every key absent from the tables as falling back to itself.
- Submissions.UpdateStatus: covers the handler with nothing interleaved. Interleaving is stated by `BeginUpdate` and `CompleteUpdate`. The dialog test reads the selection captured at the start, while the list and flags are updated from their current values.
- Api.FieldNumber: parses only the texts the model sends. The upload route's `parseFloat` of other text and its `NaN` handling are not modelled.
- Submissions.FilteredObservations: the source compares against a free-form filter string, but the model restricts the filter to "all" or a status. A string matching no status would show an empty list.
