# stitching-with-stitch: a verified model of the deterministic core

stitching-with-stitch is a React app for a crop marketplace, with a small
Express proxy in front of an AI text service. Most of it is presentation.
This project models in Dafny the pieces that hold logic, and proves what each
promises:

- the trade-offer calculator and quantity stepper;
- the wallet's balance history and the geometry of its trend chart;
- the market search filter;
- the notification queue;
- the price-alert form;
- the server's response shaping: code-fence stripping and the id-keyed
  `cropDetails` map;
- the profile editor;
- the rating stars and the crop-detail lookup;
- the wallet's transaction classification;
- the authentication flag;
- the route tables chosen by that flag.

There is one module per source file (`SubmitOffer`, `BalanceTrendChart`,
`MarketSearch`, `Notifications`, `PriceAlertForm`, `ServerShaping`,
`EditProfile`, `CropDetailsView`, `Wallet`, `Auth`, `AppRoutes`), plus
`Types` for the records of types.ts, `Wrappers` for `Option`, and
`Sequences` for the subsequence relation.

Code that changes state step by step is modelled as imperative Dafny:

- `OfferForm`, `NotificationCenter`, `AlertModal`, `EditProfileSession`,
  `DetailsView` and `AuthProvider` are classes whose methods update
  their fields.
- `BalanceHistory` and `BuildDetailsMap` are loops.
- `CleanResponseText` reassigns its text step by step, as the route does.

Each of these is proved against a pure function, and the properties are
proved about that function.

Numbers are `real`, and the quantity is an `int`. Text typed into a numeric
input is held as what `parseFloat`/`parseInt` make of it: `None` stands for
`NaN`. A URL path is its list of segments.

## Model

| member | source | states |
|---|---|---|
| SubmitOffer.ClampedQuantity | pages/SubmitOfferPage.tsx:26-28 | The stepper's quantity is at least 1 whatever the previous quantity and step; it is `prev + amount` when that is at least 1, and 1 otherwise |
| SubmitOffer.QuantityFromInput | pages/SubmitOfferPage.tsx:103 | A typed quantity that fails to parse or parses to 0 becomes 1; every other integer, negative ones included, is kept |
| SubmitOffer.Totals | pages/SubmitOfferPage.tsx:30-40 | An unparseable or non-positive price gives value, fee and total all 0; otherwise the value is quantity·price, the fee is 1% of it and the total is 101% of it |
| SubmitOffer.SubmitDisabled | pages/SubmitOfferPage.tsx:133 | The button is disabled when the total is not positive; `SubmitDisabledIff` states which inputs that means |
| SubmitOffer.SubmitDisabledIff | pages/SubmitOfferPage.tsx:133 | Submission is disabled exactly when the price is missing or not positive, or the quantity is not positive |
| SubmitOffer.InitialQuantityAtHundred | pages/SubmitOfferPage.tsx:15-38 | The initial quantity 10 at price 100 gives 1000, 10 and 1010 |
| SubmitOffer.StepRepeatedly | pages/SubmitOfferPage.tsx:26-28 | After one or more presses of a stepper button, the quantity is at least 1 |
| SubmitOffer.RepeatedDecrementStopsAtOne | pages/SubmitOfferPage.tsx:27 | From q ≥ 1, n decrements give max(1, q − n): the quantity stops at 1 and stays there |
| SubmitOffer.RepeatedIncrementAdds | pages/SubmitOfferPage.tsx:27 | From q ≥ 1, n increments give q + n |
| SubmitOffer.OfferForm.constructor | pages/SubmitOfferPage.tsx:15-16 | The form starts with quantity 10 and an empty price |
| SubmitOffer.OfferForm.HandleQuantityChange | pages/SubmitOfferPage.tsx:26-28 | The quantity becomes the clamped sum and stays at least 1; the price is untouched |
| SubmitOffer.OfferForm.TypeQuantity | pages/SubmitOfferPage.tsx:103 | The quantity becomes the `parseInt(...) \|\| 1` value; the price is untouched |
| SubmitOffer.OfferForm.TypeOfferPrice | pages/SubmitOfferPage.tsx:119 | The price becomes the parsed text; the quantity is untouched |
| BalanceTrendChart.BalanceHistory | components/BalanceTrendChart.tsx:10-21 | The history has one more entry than there are transactions and starts at `initialBalance`. Each step adds the next-older transaction's amount, so the newest-first list is replayed oldest-first. The last entry is `initialBalance` plus all amounts. The chart renders exactly when there is a transaction |
| BalanceTrendChart.MaxOf | components/BalanceTrendChart.tsx:27 | `Math.max(...history)` bounds every entry from above |
| BalanceTrendChart.MinOf | components/BalanceTrendChart.tsx:28 | `Math.min(...history)` bounds every entry from below |
| BalanceTrendChart.MaxOfIsElement | components/BalanceTrendChart.tsx:27 | The maximum is one of the balances |
| BalanceTrendChart.MinOfIsElement | components/BalanceTrendChart.tsx:28 | The minimum is one of the balances |
| BalanceTrendChart.Points | components/BalanceTrendChart.tsx:31-35 | There is one point per balance |
| BalanceTrendChart.PointX | components/BalanceTrendChart.tsx:32 | The first of n points is at x = padding, the last at width − padding, and every point lies between them |
| BalanceTrendChart.PointY | components/BalanceTrendChart.tsx:29-33 | The minimum balance maps to height − padding whatever the range. With a positive range the maximum maps to the padding, and every balance between the two stays within the padded height |
| BalanceTrendChart.Chart | components/BalanceTrendChart.tsx:21-55 | Nothing is drawn exactly when the history has fewer than two entries. Otherwise the polyline is the bottom-left anchor (padding, height), then the points `Points` gives, then the bottom-right anchor (width − padding, height); the marker circle is at x = width − padding − 1 and the last point's y |
| BalanceTrendChart.ChartClosesOnBaseline | components/BalanceTrendChart.tsx:53 | The outline has two more vertices than there are balances. It drops straight down from the first and the last point to anchors on the bottom edge, and every balance vertex lies at least the padding above that edge |
| BalanceTrendChart.MarkerAtLatestBalance | components/BalanceTrendChart.tsx:37-55 | The end marker is at the latest balance's height, which lies within the padded band |
| BalanceTrendChart.XSpansPaddedWidth | components/BalanceTrendChart.tsx:32 | x runs strictly increasing from the padding (first point) to width − padding (last point) |
| BalanceTrendChart.YWithinPaddedHeight | components/BalanceTrendChart.tsx:27-33 | Every y lies in [padding, height − padding] |
| BalanceTrendChart.MinimumAtBottom | components/BalanceTrendChart.tsx:28-33 | A point whose balance is the minimum is drawn at height − padding |
| BalanceTrendChart.MaximumAtTop | components/BalanceTrendChart.tsx:27-33 | When the range is positive, a point whose balance is the maximum is drawn at the padding |
| BalanceTrendChart.FlatHistoryLiesOnBottom | components/BalanceTrendChart.tsx:29-33 | With all balances equal, the `range \|\| 1` guard puts every point at height − padding |
| BalanceTrendChart.WorkedHistory | components/BalanceTrendChart.tsx:10-18 | From 1000 with newest-first amounts +200 and −50, the history is 1000, 950, 1150 |
| MarketSearch.ToLower | pages/MarketPage.tsx:36-37 | Lower-casing keeps the length, maps each letter A–Z to its lower-case letter a–z, leaves no letter A–Z, and keeps every other character in place |
| MarketSearch.ToLowerIdempotent | pages/MarketPage.tsx:36-37 | Lower-casing twice is lower-casing once |
| MarketSearch.Includes | pages/MarketPage.tsx:36-37 | `includes` holds exactly when the term occurs at some position of the string |
| MarketSearch.Matches | pages/MarketPage.tsx:36-37 | A listing matches when the lower-cased term is included in its lower-cased name or in its lower-cased farm |
| MarketSearch.FilterListings | pages/MarketPage.tsx:34-39 | The result is an order-preserving subsequence of the listings. Every kept listing has the lower-cased term in its lower-cased name or farm, and every listing that does is kept, as many times as it occurs in the input |
| MarketSearch.EmptyTermKeepsAll | pages/MarketPage.tsx:36-37 | An empty search term keeps every listing |
| MarketSearch.CaseInsensitive | pages/MarketPage.tsx:36-37 | Terms that differ only in letter case give the same result |
| MarketSearch.FilterIdempotent | pages/MarketPage.tsx:35-38 | Filtering the result again with the same term changes nothing |
| Notifications.WithoutId | context/NotificationContext.tsx:25-27 | Removal keeps an order-preserving subsequence with no entry of that id and every entry of another id |
| Notifications.RemoveAbsentIsIdentity | context/NotificationContext.tsx:26 | Removing an id that is not queued leaves the queue unchanged |
| Notifications.RemoveIdempotent | context/NotificationContext.tsx:26 | Removing the same id twice is removing it once |
| Notifications.RemoveAfterAppend | context/NotificationContext.tsx:20-27 | Removal after an add is removal before it, followed by the add when the new entry has a different id |
| Notifications.SameMillisecondRemovedTogether | context/NotificationContext.tsx:21-26 | Two entries added in the same millisecond share an id, and one removal deletes both |
| Notifications.NotificationCenter.constructor | context/NotificationContext.tsx:18 | The queue starts empty |
| Notifications.NotificationCenter.AddNotification | context/NotificationContext.tsx:20-23 | Add appends exactly one `{id, message}` at the end and keeps the earlier entries in order |
| Notifications.NotificationCenter.RemoveNotification | context/NotificationContext.tsx:25-27 | The queue becomes the filtered queue |
| Notifications.AddTwice | context/NotificationContext.tsx:20-23 | There is no deduplication: adding the same message twice appends two equal entries after the earlier ones, which stay as they were |
| PriceAlertForm.InitialCondition | components/PriceAlertModal.tsx:14 | The initial condition is the existing alert's, otherwise above |
| PriceAlertForm.InitialTarget | components/PriceAlertModal.tsx:15 | The initial target is the existing alert's target price, otherwise the crop's price |
| PriceAlertForm.Validate | components/PriceAlertModal.tsx:17-28 | An alert is emitted exactly when the target parses to a number above 0. It carries the crop's id and name, the form's condition and the parsed target |
| PriceAlertForm.RemoveAction | components/PriceAlertModal.tsx:85-89 | The remove action exists exactly when an alert exists, and it passes the crop's id |
| PriceAlertForm.ResubmitSameAlert | components/PriceAlertModal.tsx:17-28 | Submitting an emitted alert's own condition and target emits the same alert again |
| PriceAlertForm.AlertModal.constructor | components/PriceAlertModal.tsx:14-15 | The form state starts at the initial condition and target |
| PriceAlertForm.AlertModal.SetCondition | components/PriceAlertModal.tsx:51-64 | The Above/Below buttons set the condition and leave the target alone |
| PriceAlertForm.AlertModal.SetTarget | components/PriceAlertModal.tsx:76 | The target input sets the target and leaves the condition alone |
| PriceAlertForm.AlertModal.Submit | components/PriceAlertModal.tsx:17-28 | Each submit hands at most one alert to `onSetAlert`, and only for a positive target |
| ServerShaping.TrimStart | server.js:42 | The result is a suffix of the input that does not start with whitespace, and everything removed is whitespace |
| ServerShaping.TrimEnd | server.js:42 | The result is a prefix of the input that does not end with whitespace, and everything removed is whitespace |
| ServerShaping.TrimOfTrimmed | server.js:42-46 | Text with no whitespace at either end is its own trim |
| ServerShaping.Trim | server.js:42 | `trim` removes whitespace from the end of the text, then from its start |
| ServerShaping.TrimIsSlice | server.js:42 | The trim is the slice of the input between its leading and trailing whitespace. Everything before and after the slice is whitespace, and the slice neither starts nor ends with whitespace |
| ServerShaping.TrimmingIsUnique | server.js:42 | Any two slices that meet that description are equal, so the description pins down the trim |
| ServerShaping.TrimIdempotent | server.js:42-46 | Trimming twice is trimming once |
| ServerShaping.SubstringSymmetric | server.js:44-46 | `substring` clamps both bounds and swaps them, so their order does not matter |
| ServerShaping.Substring | server.js:44-46 | `substring` clamps both bounds to [0, length] and swaps them when the start exceeds the end |
| ServerShaping.StartsWith | server.js:43-45 | `startsWith` holds when the prefix is no longer than the text and equals the text's first characters |
| ServerShaping.StripCodeFence | server.js:42-47 | `cleanedText`: the trimmed text, with a leading "```json" or "```" fence and the last three characters cut off and the rest trimmed again; the round-trip lemmas below state what that yields |
| ServerShaping.CleanResponseText | server.js:42-47 | The reassigned `cleanedText` equals the fence-stripping function of the generated text |
| ServerShaping.JsonFenceIsFence | server.js:43-45 | Text starting with the `json` fence also starts with a bare fence, so the bare-fence test is reached only without `json` |
| ServerShaping.UnfencedPassesThrough | server.js:42-47 | After the trim, text that does not start with a fence is passed on unchanged |
| ServerShaping.JsonFenceRoundTrip | server.js:43-44 | Stripping "```json" + s + "```" gives the trimmed s |
| ServerShaping.BareFenceIsNotJsonFence | server.js:43-45 | "```" + s + "```" takes the bare-fence branch when s does not start with "json" |
| ServerShaping.PlainFenceRoundTrip | server.js:45-46 | Stripping "```" + s + "```" gives the trimmed s when s does not start with "json" |
| ServerShaping.ClosingFenceNotChecked | server.js:44 | The last three characters are dropped without being checked to be backticks |
| ServerShaping.ShortFencedTexts | server.js:44-46 | On short inputs, `substring`'s clamp and swap apply: "```json" alone gives "son", and "```" alone comes back unchanged |
| ServerShaping.LastWithId | server.js:52-55 | There is an entry for an id exactly when the id occurs, and it is an entry of the list carrying that id |
| ServerShaping.LastWithIdIsLast | server.js:53 | The entry found is the one that no later entry with the same id follows |
| ServerShaping.BuildDetailsMap | server.js:52-55 | The map's keys are exactly the ids in the array, and each key maps to the last entry with that id |
| ServerShaping.ShapeAppData | server.js:52-60 | The result keeps every other top-level field and replaces only `cropDetails` with the id-keyed map, the last entry winning. An empty array gives the empty map. A document without a `cropDetails` array fails |
| EditProfile.SetTopLevel | pages/EditProfilePage.tsx:29 | Read as a dictionary of its string fields, the profile gets the typed value under the input's key and keeps every other field; the farm is untouched |
| EditProfile.SetFarmField | pages/EditProfilePage.tsx:27 | Read as a dictionary, the farm gets the typed value under the input's key and keeps its other fields |
| EditProfile.HandleChange | pages/EditProfilePage.tsx:24-31 | A null profile stays null. The farm section changes only the farm, as `SetFarmField` states, and the top section only top-level fields |
| EditProfile.TypeInto | pages/EditProfilePage.tsx:24-31 | A null profile stays null. Otherwise the field the input shows becomes the typed value, and every other field keeps its value. "Farm Name" therefore never changes the person's name, although both inputs carry `name="name"` |
| EditProfile.OnMount | pages/EditProfilePage.tsx:12-22 | With a profile passed in, nothing happens. Without one, a saved profile is loaded if present; otherwise the page redirects to /profile |
| EditProfile.StoredAfterSubmit | pages/EditProfilePage.tsx:33-40 | The stored profile is overwritten only when the profile is not null |
| EditProfile.EditProfileSession.constructor | pages/EditProfilePage.tsx:10 | The page starts with the profile passed through navigation |
| EditProfile.EditProfileSession.LoadOrRedirect | pages/EditProfilePage.tsx:12-22 | The mount effect keeps, loads or redirects as stated above and leaves the storage alone |
| EditProfile.EditProfileSession.Change | pages/EditProfilePage.tsx:24-31 | A change handler applies the one-field update and touches nothing else |
| EditProfile.EditProfileSession.Submit | pages/EditProfilePage.tsx:33-40 | Submit saves and navigates to /profile only for a non-null profile, and never changes the profile |
| CropDetailsView.Stars | pages/CropDetailsPage.tsx:9-23 | Exactly 5 stars are rendered |
| CropDetailsView.FilledStarsFormPrefix | pages/CropDetailsPage.tsx:11-17 | A filled star is preceded only by filled stars |
| CropDetailsView.CountPrefixFlags | pages/CropDetailsPage.tsx:16-17 | Of n stars with the first k filled, the filled count is k clamped to [0, n] |
| CropDetailsView.FilledCount | pages/CropDetailsPage.tsx:11-17 | The filled count is min(5, max(0, floor(rating))) |
| CropDetailsView.FractionalRatingsRoundDown | pages/CropDetailsPage.tsx:11 | Ratings 4.5 and 4.9 both fill 4 stars |
| CropDetailsView.LookupDetail | pages/CropDetailsPage.tsx:35-37 | A detail is found exactly when the data arrived and holds the id; it is the stored entry |
| CropDetailsView.DetailsView.constructor | pages/CropDetailsPage.tsx:28-29 | The page starts with no details and loading |
| CropDetailsView.DetailsView.LoadDetails | pages/CropDetailsPage.tsx:31-43 | With an id, details are set exactly when the id is found, and loading ends. With no id, the early return leaves loading on |
| Wallet.TransactionIcon | pages/WalletPage.tsx:8-12 | Deposits and sales get `south_west` and the primary colour; withdrawals and purchases get `north_east` |
| Wallet.AmountPrefix | pages/WalletPage.tsx:69 | The "+" prefix is shown exactly when the amount is positive, so zero and negative amounts get none |
| Wallet.AmountColor | pages/WalletPage.tsx:68 | The primary highlight is applied exactly when the amount is positive |
| Wallet.IconAndHighlightIndependent | pages/WalletPage.tsx:8-69 | The highlight follows the amount, not the type: a positive withdrawal is highlighted, and a negative sale still gets the income icon |
| Auth.Apply | auth/AuthContext.tsx:13-20 | Login sets the flag from any state, and logout clears it from any state |
| Auth.ApplyAll | auth/AuthContext.tsx:4-21 | In the provider the last action alone decides the flag, whatever came before, so login and logout are each idempotent. In the default context the actions do nothing and the flag keeps its initial value |
| Auth.AuthProvider.constructor | auth/AuthContext.tsx:11 | The provider starts unauthenticated |
| Auth.AuthProvider.Login | auth/AuthContext.tsx:13-16 | `login` sets the flag |
| Auth.AuthProvider.Logout | auth/AuthContext.tsx:18-20 | `logout` clears the flag |
| AppRoutes.MatchPattern | App.tsx:44-58 | A pattern matches only paths with as many segments as it has |
| AppRoutes.MatchPatternIff | App.tsx:44-58 | A pattern matches a path exactly when the lengths agree, each literal equals its segment and each parameter faces a non-empty segment |
| AppRoutes.MatchPatternBinds | App.tsx:46-47 | A match binds exactly the pattern's parameter names, each to the segment at the parameter's first occurrence |
| AppRoutes.FirstMatch | App.tsx:41-61 | The result is the first route of the table matching the path, or none when no route matches |
| AppRoutes.Resolve | App.tsx:41-61 | The first matching route decides: its page is rendered with the bound parameters, or its redirect is followed; with no match, the `*` fallback redirects |
| AppRoutes.TableElements | App.tsx:42-59 | Every route of a table shows one of that table's pages or redirects to the table's fallback |
| AppRoutes.OutcomesBelongToTable | App.tsx:42-59 | A rendered page belongs to the table in force, and every redirect goes to /market (authenticated) or /welcome |
| AppRoutes.ResolveSingle | App.tsx:45-57 | A one-segment path shows the page of the route with that literal when no earlier route can match it |
| AppRoutes.MatchLiteralParam | App.tsx:46-47 | `/lit/:name` matches exactly the two-segment paths starting with lit whose second segment is not empty, binding it to name |
| AppRoutes.DetailsPath | App.tsx:46 | /details/:id shows the crop details with `id` bound to the segment |
| AppRoutes.OfferPath | App.tsx:47 | /offer/:id shows the offer form with `id` bound to the segment |
| AppRoutes.MarketPath | App.tsx:45 | /market shows the market |
| AppRoutes.WalletPath | App.tsx:48 | /wallet shows the wallet |
| AppRoutes.ProfilePath | App.tsx:49 | /profile shows the profile |
| AppRoutes.SettingsPath | App.tsx:50 | /settings shows the settings |
| AppRoutes.GuestPaths | App.tsx:55-57 | /welcome, /login and /signup show their pages |
| AppRoutes.AuthenticatedPageReachable | App.tsx:45-50 | Each authenticated page has a path that shows it |
| AppRoutes.AuthenticatedReachability | App.tsx:42-52 | When authenticated, a page is reachable exactly when it is Market, CropDetails, SubmitOffer, Wallet, Profile or Settings |
| AppRoutes.GuestReachability | App.tsx:53-59 | When not authenticated, a page is reachable exactly when it is Welcome, Login or Signup |
| AppRoutes.UnroutedPagesUnreachable | App.tsx:5-60 | The deposit, deposit-method, withdraw, list-crop and edit-profile pages are in neither table, so no path reaches them |
| AppRoutes.RootRedirectsToMarket | App.tsx:44 | "/" redirects to /market when authenticated |
| AppRoutes.UnmatchedPathsFallBack | App.tsx:51-58 | A path no route matches redirects to /market when authenticated and to /welcome otherwise |
| AppRoutes.IdParamBindsOneSegment | App.tsx:46-51 | /details with no id, with two extra segments or with an empty id falls back to /market |
| AppRoutes.RedirectsLand | App.tsx:44-58 | Every redirect lands on a rendered page, so the router never redirects twice in a row |

## Left out

- Notification visibility timers (components/Notification.tsx). These are wall-clock `setTimeout` lifetimes.
- The submit status flips driven by `setTimeout` on the offer page (idle, loading, success), and the offer page's redirect to /details when it has no details. Both depend on timing or on navigation state outside the model.
- The 100 ms delay before navigating after a profile save. `Submit` navigates at once.
- All network and AI calls: the services layer, the Express routes and `generateContent`. `Date.now()` is passed in as a parameter. The empty-text 500 branch and `JSON.parse` are also left out: the parsed document is a parameter of `ShapeAppData`.
- `localStorage`. It is an optional stored profile, so a stored empty string (falsy in the source) is not distinguished from an absent one.
- Floating-point rounding and display formatting (`toFixed`, `toLocaleString`). Arithmetic is on exact reals.
- PriceAlertForm.InitialTarget: takes the crop's price exactly, not its `toFixed(2)` rounding.
- BalanceTrendChart.Chart: the vertices are numbers, not the `x,y` text of the SVG `points` attribute, and the marker takes the last point's y directly where `lastPointY` parses it back from that text; the colours, gradient and stroke styling are not modelled.
- The grammar of `parseFloat` and `parseInt`. Their outcome is a parameter.
- Unicode case folding. `toLowerCase` maps only A–Z.
- `ServerShaping.Json` values nested inside a detail. Detail entries are typed records.
- ServerShaping.ShapeAppData: a non-empty `cropDetails` array whose entries are not detail records is treated as a failure. The source would still reduce it: an entry without an `id` lands under the key "undefined", and only a `null` or `undefined` entry throws. Because the accumulator is a plain object, an id of "__proto__" would replace its prototype instead of adding a key; the model adds the key.
- ServerShaping.StripCodeFence: lengths and positions count Unicode scalar values, while JavaScript's `length` and `substring` count UTF-16 code units. The two agree only on text without characters outside the Basic Multilingual Plane. Where such a character sits inside the last three code units, the source cuts it in half and the model does not.
- ServerShaping.ClosingFenceNotChecked: holds on Unicode scalar values. On text with characters outside the Basic Multilingual Plane the source's last three code units can differ from the last three characters.
- CropDetailsView.LookupDetail: the details map is a plain map. In the source it is a JavaScript object, so an id naming an inherited property such as "constructor" finds that (truthy) property, and the page would show it as details.
- CropDetailsView.DetailsView.LoadDetails: one load runs to completion. `loadDetails` in the source is asynchronous with no cancellation, so when the id changes, a slower earlier fetch can finish last and overwrite the details of the newer id.
- EditProfile.SetTopLevel: the input names are fixed, so keys other than the profile's own fields (which the spread would add as new properties) are not modelled.
- AppRoutes.Resolve: literal segments match exactly. React Router's case-insensitive matching and its trailing-slash normalisation are not modelled. Its ranking by specificity is modelled as table order; the patterns of each table are disjoint, so the order decides only that `*` comes last.
- The default `NotificationContext`, whose `addNotification` does nothing, has no callers in the core, so it is not modelled.
- The balance chart and the price-alert modal have no caller among the source files, so where their inputs come from is not modelled.
- Presentation-only pages and components: Header, Button3D, BottomNav, LoadingSpinner, Welcome, Settings, Deposit, DepositMethod, Withdraw, Profile, Login, Signup and ListCrop.
