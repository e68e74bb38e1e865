# Bisklet, modelled in Dafny

Bisklet is an Ethiopian bike-sharing system: a React Native rider app (map,
ride, sign-up, phone verification, onboarding) and a React admin portal
(users, permissions, user types, bikes, login), both over a hosted Supabase
backend. This project models the rules those screens apply once the backend
calls are taken as inputs, and proves what they promise:

- **LanguageContext** (web): the dictionary resolver `t` with its English
  retry and fallback chain (`Walk` and `Translate` are the loops of the
  source, proved against `WalkSpec`/`Resolve`), the initial language and the
  document direction.
- **RideScreen**, **ActiveTripCard**: the once-a-second accrual tick
  (minutes, seconds, `MM:SS`, distance in metres, cost in cents) and the end
  of a ride as a sequence of record updates.
- **MapScreen**, **FilterModal**: the rider's bike filter and the filter
  sheet's handlers and slider domains.
- **UserPermissions**, **UserManagement**, **BikeManagement**, **UserTypes**:
  the admin portal's validators, role tables, permission toggling, grant
  records, list filters, statistics, the time-ago text, the CSV export, the
  QR code and the (role, type) aggregation.
- **UseSupabase**: the realtime change reducers, alert resolution and the
  query builder of the data hooks.
- **RegisterScreen**, **PhoneVerification**, **Login**, **Onboarding**,
  **MobileLanguageContext**: the sign-up checks, the resend countdown and the
  phone formatter, the demo/database login decision, the onboarding carousel
  and the mobile language choice.
- **EthiopianCalendar**: the approximate Gregorian-to-Ethiopian label.

Helper modules: `Util` (Option), `Text` (JavaScript string operations:
whitespace, ASCII lower-casing, substring search, split/join, number text,
`padStart`, `parseInt`), `Seqs` (order-preserving filtering and
subsequences) and `Validation` (the e-mail and phone patterns and the
new-user check shared by two admin pages).

Screens whose state changes in place are classes whose methods name the
fields they change (`modifies this`f`); remote reads are parameters and
remote tables the screens write are fields (maps and sequences of rows).
Amounts are exact: trip distance in whole metres, money in whole cents.

## Model

| member | source | states |
|---|---|---|
| LanguageContext.Walk | src/contexts/LanguageContext.tsx:469-480 | the walk loop, breaking as soon as the value is not an object, yields exactly the segment-by-segment descent `WalkSpec` |
| LanguageContext.Translate | src/contexts/LanguageContext.tsx:463-498 | the imperative `t` (plain-key shortcut, first walk, English retry, fallback chain) equals the functional `Resolve` |
| LanguageContext.Resolve | src/contexts/LanguageContext.tsx:463-498 | the value of `t(key, fallback)`: the plain-key shortcut, the walk in the active language, the English retry and the fallback chain; `Translate` is proved equal to it, and `PlainKey`, `MissingLanguageUsesEnglish`, `NonEmptyResult` and `DottedKeyNeverResolves` state its properties |
| LanguageContext.Truthy | src/contexts/LanguageContext.tsx:474-497 | JavaScript truthiness of what a walk found: an object, or a non-empty string; `Resolve` and `ResolveFlat` take a value exactly when it holds |
| LanguageContext.WalkStuck | src/contexts/LanguageContext.tsx:474-477 | a walk that meets a non-object with segments left yields `undefined` |
| LanguageContext.PlainKey | src/contexts/LanguageContext.tsx:465-467 | a key without '.' yields the fallback when non-empty, else the key, whatever the dictionaries hold |
| LanguageContext.EnglishOnlyOnMiss | src/contexts/LanguageContext.tsx:483-494 | when the active language is 'en' or its walk finds a truthy value, the English dictionary is never consulted: changing it does not change the result |
| LanguageContext.MissingLanguageUsesEnglish | src/contexts/LanguageContext.tsx:470-474 | a language with no dictionary resolves every key exactly as 'en' does |
| LanguageContext.NonEmptyResult | src/contexts/LanguageContext.tsx:497-497 | a non-empty key never yields the empty string |
| LanguageContext.FlatWalkFails | src/contexts/LanguageContext.tsx:473-480 | walking a flat dictionary (all values strings) along two or more segments fails |
| LanguageContext.DottedKeyNeverResolves | src/contexts/LanguageContext.tsx:469-497 | with flat dictionaries every dotted key yields the fallback, else its last segment, else the key |
| LanguageContext.ShippedDictionaries | src/contexts/LanguageContext.tsx:21-441 | the shipped dictionaries are flat objects with dotted keys |
| LanguageContext.DashboardKeyShowsLastSegment | src/contexts/LanguageContext.tsx:463-498 | 'nav.dashboard' shows 'dashboard' in every language although each dictionary has that key |
| LanguageContext.ResolveFlatFinds | src/contexts/LanguageContext.tsx:463-498 | the whole-key lookup shows the language's non-empty entry, else the non-empty English entry, else `t`'s fallback chain |
| LanguageContext.ResolveFlat | src/contexts/LanguageContext.tsx:463-498 | the corrected whole-key lookup with `t`'s English retry and fallback chain; `ResolveFlatFinds`, `ResolveFlatAgreesOnMiss` and `DashboardKeyFlat` state what it returns |
| LanguageContext.ResolveFlatAgreesOnMiss | src/contexts/LanguageContext.tsx:463-498 | for a dotted key neither dictionary holds, the whole-key lookup and `t` give the same text |
| LanguageContext.DashboardKeyFlat | src/contexts/LanguageContext.tsx:463-498 | with the whole-key lookup 'nav.dashboard' shows 'Dashboard', 'ዳሽቦርድ' or 'Gabatee Hojii', and English for a language without a dictionary |
| LanguageContext.InitialLanguage | src/contexts/LanguageContext.tsx:448-451 | the stored 'bisklet-language' value when it is non-empty, else 'en' |
| LanguageContext.Direction | src/contexts/LanguageContext.tsx:458-458 | the direction is 'rtl' exactly for 'ar', else 'ltr' |
| LanguageContext.LanguageProvider.constructor | src/contexts/LanguageContext.tsx:448-460 | mounting starts with the initial language and the effect stores it and sets the document direction and lang |
| LanguageContext.LanguageProvider.SetLanguage | src/contexts/LanguageContext.tsx:454-460 | a new language is stored under 'bisklet-language' and the document attributes follow it |
| LanguageContext.LanguageProvider.IsRTL | src/contexts/LanguageContext.tsx:500-500 | `isRTL` holds exactly when the document direction is 'rtl' |
| LanguageContext.LanguageProvider.T | src/contexts/LanguageContext.tsx:463-498 | the provider's `t` is the resolver over the shipped dictionaries in the current language |
| RideScreen.JsRem | mobile/src/screens/main/RideScreen.tsx:50-50 | JavaScript `%`: a non-negative dividend gives a remainder in 0..b-1, a negative one a remainder in -(b-1)..0 |
| RideScreen.DecomposeBounds | mobile/src/screens/main/RideScreen.tsx:47-50 | for a non-negative difference seconds lie in 0..59 and minutes·60000 + seconds·1000 ≤ diff < that + 1000 |
| RideScreen.Minutes | mobile/src/screens/main/RideScreen.tsx:49-49 | `Math.floor(diff / 60000)`; `DecomposeBounds` and `MinutesMonotone` bound it and show it never decreases |
| RideScreen.Seconds | mobile/src/screens/main/RideScreen.tsx:50-50 | `Math.floor((diff % 60000) / 1000)` with JavaScript's truncating `%`; `DecomposeBounds` puts it in 0..59 for a non-negative difference |
| RideScreen.ElapsedShape | mobile/src/screens/main/RideScreen.tsx:52-54 | the text is digits, ':', two digits; 100 minutes or more give three or more minute digits |
| RideScreen.CostPerMinute | mobile/src/screens/main/RideScreen.tsx:57-61 | distance is 200 m per minute and cost is exactly 500 + 40·minutes cents |
| RideScreen.DistanceMetres | mobile/src/screens/main/RideScreen.tsx:57-57 | 200 m per whole minute, in metres; `CostPerMinute` states it |
| RideScreen.CostCents | mobile/src/screens/main/RideScreen.tsx:60-61 | a 5 ETB base fee and 2 ETB per km, in cents; `CostPerMinute` and `CostMonotone` state its value per minute and that it never decreases |
| RideScreen.Accrue | mobile/src/screens/main/RideScreen.tsx:44-63 | the three figures one tick writes; `RideSession.Tick` writes them, and `FirstMinute`, `ZeroPoint` and `TenMinutes` state them at given times |
| RideScreen.CostMonotone | mobile/src/screens/main/RideScreen.tsx:57-61 | the cost never decreases as time passes |
| RideScreen.FirstMinute | mobile/src/screens/main/RideScreen.tsx:57-61 | throughout the first minute the distance is 0 and the cost is the 5 ETB base fee |
| RideScreen.ZeroPoint | mobile/src/screens/main/RideScreen.tsx:49-61 | at the start instant the tick writes '00:00', 0 m and 500 cents |
| RideScreen.TenMinutes | mobile/src/screens/main/RideScreen.tsx:49-61 | ten minutes give '10:00', 2000 m and 900 cents |
| RideScreen.MinutesFieldRoundTrip | mobile/src/screens/main/RideScreen.tsx:52-122 | parsing the minutes part of the elapsed text gives back that tick's minutes |
| RideScreen.Shown | mobile/src/screens/main/RideScreen.tsx:31-33 | before any tick the screen shows 0 m and 0 cents, not the base fee |
| RideScreen.RideSession.constructor | mobile/src/screens/main/RideScreen.tsx:30-34 | the screen mounts with '00:00', 0 and 0 and the loaded trip |
| RideScreen.RideSession.Tick | mobile/src/screens/main/RideScreen.tsx:44-63 | each tick overwrites the elapsed text, distance and cost with the accrual of (now − start), whatever ran before |
| RideScreen.RideSession.HandleEndRide | mobile/src/screens/main/RideScreen.tsx:90-101 | the confirmation is offered exactly when there is an active trip and a known location |
| RideScreen.RideSession.ConfirmEndRide | mobile/src/screens/main/RideScreen.tsx:103-151 | nothing happens without a trip and a location; otherwise the bike becomes 'available', the trip row is completed with the shown figures, and one pending wallet ride payment of the cost is appended |
| RideScreen.CompletedAfterTick | mobile/src/screens/main/RideScreen.tsx:115-126 | after a tick the completed row holds that tick's minutes, 200 m per minute and 500 + 40 cents per minute |
| RideScreen.Completed | mobile/src/screens/main/RideScreen.tsx:115-126 | the trip update: status completed, end time and location, the shown distance and cost, and `parseInt` of the minutes part; `CompletedAfterTick` and `CompletedBeforeTick` state what it saves |
| RideScreen.CompletedBeforeTick | mobile/src/screens/main/RideScreen.tsx:115-126 | ending before any tick saves 0 minutes, 0 m and 0 cents |
| RideScreen.MinutesMonotone | mobile/src/screens/main/RideScreen.tsx:49-49 | a later instant never has fewer whole minutes |
| RideScreen.PadOneDigit | mobile/src/screens/main/RideScreen.tsx:52-54 | a number below ten shows as '0' and its digit |
| RideScreen.Pad2 | mobile/src/screens/main/RideScreen.tsx:52-54 | `String(n).padStart(2, '0')`; `PadOneDigit` and `PadTwoDigits` give its text |
| RideScreen.PadTwoDigits | mobile/src/screens/main/RideScreen.tsx:52-54 | a two-digit number shows as its two digits |
| RideScreen.ZeroText | mobile/src/screens/main/RideScreen.tsx:52-54 | the start instant shows '00:00' |
| RideScreen.TenMinutesText | mobile/src/screens/main/RideScreen.tsx:52-54 | ten minutes show '10:00' |
| RideScreen.FieldsAt | mobile/src/screens/main/RideScreen.tsx:49-54 | the text is the padded minutes, ':', the padded seconds |
| RideScreen.ElapsedText | mobile/src/screens/main/RideScreen.tsx:49-54 | the `MM:SS` text; `ElapsedShape`, `FieldsAt` and `MinutesFieldRoundTrip` state its shape and that its minutes read back |
| ActiveTripCard.BikeCodeLabel | mobile/src/components/ActiveTripCard.tsx:60-60 | the joined bike code, or 'BK-0000' when it is missing or empty |
| ActiveTripCard.BikeModelLabel | mobile/src/components/ActiveTripCard.tsx:63-63 | the joined model, or 'Urban Classic' when it is missing or empty |
| ActiveTripCard.LocationLabel | mobile/src/components/ActiveTripCard.tsx:77-77 | the start location name, or the translated 'unknown location' text |
| ActiveTripCard.LabelsNonEmpty | mobile/src/components/ActiveTripCard.tsx:60-63 | the bike code and model labels are never empty |
| ActiveTripCard.TripCard.constructor | mobile/src/components/ActiveTripCard.tsx:24-24 | the card shows '00:00' before the first tick |
| ActiveTripCard.TripCard.Tick | mobile/src/components/ActiveTripCard.tsx:26-41 | each tick shows the `MM:SS` text of (now − start), the same decomposition as the ride screen, independent of earlier ticks |
| MapScreen.InitialFilters | mobile/src/screens/main/MapScreen.tsx:37-41 | the filters start at battery 0, distance 5, type 'all' |
| MapScreen.FilteredBikes | mobile/src/screens/main/MapScreen.tsx:120-128 | every listed bike passes the battery and search tests, and no more bikes are listed than loaded |
| MapScreen.BikeCount | mobile/src/screens/main/MapScreen.tsx:198-199 | the badge counts the listed bikes; with no threshold and no search it is the number loaded |
| MapScreen.FilteredKeepsOrder | mobile/src/screens/main/MapScreen.tsx:120-120 | the list is a subsequence of the loaded bikes |
| MapScreen.FilteredMembership | mobile/src/screens/main/MapScreen.tsx:121-127 | a bike is listed exactly when it was loaded, meets a positive threshold, and for a non-empty search has a location name containing the query (both lower-cased) |
| MapScreen.MeetsBattery | mobile/src/screens/main/MapScreen.tsx:120-122 | a positive threshold drops bikes below it; `FilteredMembership` and `RaisingThresholdNarrows` state its effect on the list |
| MapScreen.MatchesSearch | mobile/src/screens/main/MapScreen.tsx:123-125 | a non-empty query drops bikes whose lower-cased location name does not contain it, and bikes without a name; `FilteredMembership` states its effect on the list |
| MapScreen.RaisingThresholdNarrows | mobile/src/screens/main/MapScreen.tsx:121-121 | a higher battery threshold lists a subsequence of what the lower one listed |
| MapScreen.DistanceAndTypeIgnored | mobile/src/screens/main/MapScreen.tsx:37-128 | filters that differ only in distance and bike type list the same bikes |
| MapScreen.InitialListsAll | mobile/src/screens/main/MapScreen.tsx:37-128 | the initial filters with an empty search list every loaded bike |
| MapScreen.ThresholdExample | mobile/src/screens/main/MapScreen.tsx:121-121 | a 50% threshold over bikes at 85, 40 and 20% keeps only the first |
| FilterModal.HandleBatteryChange | mobile/src/components/FilterModal.tsx:37-39 | only the battery level changes |
| FilterModal.HandleDistanceChange | mobile/src/components/FilterModal.tsx:41-43 | only the maximum distance changes |
| FilterModal.HandleBikeTypeChange | mobile/src/components/FilterModal.tsx:45-47 | only the bike type changes |
| FilterModal.HandleReset | mobile/src/components/FilterModal.tsx:49-55 | reset yields battery 0, distance 5, type 'all' |
| FilterModal.ResetIdempotent | mobile/src/components/FilterModal.tsx:49-55 | reset ignores the prior filters, equals the map's initial filters and is idempotent |
| FilterModal.BatterySliderValue | mobile/src/components/FilterModal.tsx:79-83 | the battery slider emits multiples of 10 in 0..100 |
| FilterModal.BatterySliderDomain | mobile/src/components/FilterModal.tsx:79-83 | a value is emitted by some stop of the battery slider exactly when it is a multiple of 10 in 0..100 |
| FilterModal.DistanceSliderValue | mobile/src/components/FilterModal.tsx:102-106 | the distance slider emits whole numbers in 1..10 |
| FilterModal.DistanceSliderDomain | mobile/src/components/FilterModal.tsx:102-106 | a value is emitted by some stop of the distance slider exactly when it is a whole number in 1..10 |
| FilterModal.BikeTypes | mobile/src/components/FilterModal.tsx:124-124 | four bike-type options, the first 'all' |
| FilterModal.DescriptionIff | mobile/src/components/FilterModal.tsx:92-92 | 'Any battery level' shows exactly for level 0; any other level shows 'Min …' |
| FilterModal.BatteryDescription | mobile/src/components/FilterModal.tsx:92-92 | 'Any battery level' at 0, else 'Min N% battery'; `DescriptionIff` states when each shows |
| FilterModal.ApplyKeeps | mobile/src/components/FilterModal.tsx:150-150 | 'Apply Filters' leaves the filters unchanged |
| FilterModal.RunStaysWellFormed | mobile/src/components/FilterModal.tsx:37-124 | any sequence of sheet actions from well-formed filters keeps battery, distance and type within the sheet's domains |
| FilterModal.Step | mobile/src/components/FilterModal.tsx:37-124 | one action on the sheet: a slider stop, a type option, reset, or apply, which changes nothing; `ApplyKeeps` and `RunStaysWellFormed` state its effect |
| FilterModal.Run | mobile/src/components/FilterModal.tsx:37-124 | a sequence of actions applied in order; `RunStaysWellFormed` proves it keeps the filters within the sheet's domains |
| FilterModal.InitialWellFormed | mobile/src/screens/main/MapScreen.tsx:37-41 | the map's initial filters lie within the sheet's domains |
| Onboarding.ExactlyOneDot | mobile/src/screens/auth/OnboardingScreen.tsx:90-97 | exactly one pagination dot is active, the one at the current slide |
| Onboarding.ButtonLabel | mobile/src/screens/auth/OnboardingScreen.tsx:109-109 | the button reads 'Get Started' exactly on the last slide, 'Next' otherwise |
| Onboarding.OnboardingScreen.constructor | mobile/src/screens/auth/OnboardingScreen.tsx:21-21 | the carousel starts at the first slide with no navigation |
| Onboarding.OnboardingScreen.HandleNext | mobile/src/screens/auth/OnboardingScreen.tsx:53-59 | before the last slide Next moves one slide on; on the last slide it navigates to 'LanguageSelection' and the index stays; the index stays in 0..2 |
| Onboarding.OnboardingScreen.HandleSkip | mobile/src/screens/auth/OnboardingScreen.tsx:61-63 | Skip navigates to 'LanguageSelection' from any slide |
| Onboarding.WalkThrough | mobile/src/screens/auth/OnboardingScreen.tsx:53-109 | three presses from a new screen reach the last slide, showing 'Get Started', and navigate exactly once |
| MobileLanguageContext.SelectLanguage | mobile/src/contexts/LanguageContext.tsx:33-44 | a saved non-empty language wins, whatever it is; else a device language among 'en', 'am', 'or'; else the language stays |
| MobileLanguageContext.Stored | mobile/src/contexts/LanguageContext.tsx:33-33 | `getItem` yields the stored value, or null for a missing key |
| MobileLanguageContext.StartingLanguage | mobile/src/contexts/LanguageContext.tsx:25-44 | from the initial 'en' the language is the saved value or one of 'en', 'am', 'or' |
| MobileLanguageContext.ArabicOnlyWhenSaved | mobile/src/contexts/LanguageContext.tsx:25-44 | from the initial 'en', 'ar' is chosen exactly when 'ar' was saved |
| MobileLanguageContext.MobileLanguageProvider.constructor | mobile/src/contexts/LanguageContext.tsx:25-25 | the provider starts in 'en' |
| MobileLanguageContext.MobileLanguageProvider.LoadSavedLanguage | mobile/src/contexts/LanguageContext.tsx:31-49 | a failed read changes nothing; otherwise the language follows the selection rule and i18n is switched exactly when the rule chooses |
| MobileLanguageContext.MobileLanguageProvider.SetLanguage | mobile/src/contexts/LanguageContext.tsx:51-59 | the state changes first; the value is saved under 'user_language' only when both the i18n switch and the write succeed |
| MobileLanguageContext.MobileLanguageProvider.IsRTL | mobile/src/contexts/LanguageContext.tsx:65-65 | `isRTL` holds exactly for 'ar' |
| MobileLanguageContext.SavedLanguageComesBack | mobile/src/contexts/LanguageContext.tsx:33-55 | a non-empty language saved by `setLanguage` is the one the next start selects, whatever the device |
| MobileLanguageContext.EmptyLanguageNotKept | mobile/src/contexts/LanguageContext.tsx:34-55 | a saved empty language is ignored at the next start, as if nothing were saved |
| MobileLanguageContext.SetThenRestart | mobile/src/contexts/LanguageContext.tsx:25-59 | setting a language and restarting the app with the same storage gives that language both times |
| EthiopianCalendar.ConvertToEthiopian | src/components/EthiopianCalendar.tsx:10-22 | an unparsable date gives 'NaN undefined NaN'; a date's text holds the separating spaces |
| EthiopianCalendar.LabelReadsBack | src/components/EthiopianCalendar.tsx:12-21 | the label splits at single spaces into the unchanged day, the month name at the Gregorian month's position and the year less 7, and both numbers parse back |
| EthiopianCalendar.PagumeNeverShown | src/components/EthiopianCalendar.tsx:13-18 | the month part is one of the first twelve names, never the thirteenth 'ጳጉሜን' |
| EthiopianCalendar.LabelInjective | src/components/EthiopianCalendar.tsx:10-22 | two dates give the same label exactly when they agree in day, month and year |
| EthiopianCalendar.PagumeIsThirteenth | src/components/EthiopianCalendar.tsx:13-16 | there are thirteen names and the last differs from each of the first twelve |
| EthiopianCalendar.DistinctNames | src/components/EthiopianCalendar.tsx:13-18 | the twelve names a Gregorian month selects are pairwise different |
| EthiopianCalendar.NamesHaveNoSpace | src/components/EthiopianCalendar.tsx:13-16 | no month name holds a space |
| UserPermissions.RoleTypesKnown | src/pages/UserPermissions.tsx:175-206 | every defined role has one of the five types 'end_user', 'admin', 'staff', 'partner', 'system' |
| UserPermissions.DefaultPermissions | src/pages/UserPermissions.tsx:308-309 | the defined role's permissions, or none for an unknown role |
| UserPermissions.InitialForm | src/pages/UserPermissions.tsx:99-112 | the form starts empty with role 'customer', type 'end_user', subscription 'pay_per_ride' and no permissions |
| UserPermissions.Toggle | src/pages/UserPermissions.tsx:457-464 | membership of the toggled permission flips and no other membership changes; an absent one is appended, a present one removed with every copy, keeping order |
| UserPermissions.ToggleTwiceRestores | src/pages/UserPermissions.tsx:457-464 | toggling an absent permission twice restores the list |
| UserPermissions.ToggleTwicePresent | src/pages/UserPermissions.tsx:457-464 | toggling a present permission twice leaves a single copy, moved to the end |
| UserPermissions.ApplyRole | src/pages/UserPermissions.tsx:466-474 | the role, its defined type ('end_user' when unknown) and its default permissions replace the form's; nothing else in the form changes |
| UserPermissions.StoredType | src/pages/UserPermissions.tsx:308-320 | the stored type is the role's defined type, or the form's type for an unknown role |
| UserPermissions.StoredPermissions | src/pages/UserPermissions.tsx:309-326 | the stored permissions are the role defaults followed by the form's list, with nothing removed |
| UserPermissions.DefaultsStoredTwice | src/pages/UserPermissions.tsx:326-472 | after choosing a role its defaults are stored twice |
| UserPermissions.SupportAndAnalystAreStaff | src/pages/UserPermissions.tsx:187-320 | customer_support and data_analyst users are stored as 'staff' by this page |
| UserPermissions.OrNull | src/pages/UserPermissions.tsx:316-324 | `x || null`: null exactly for the empty string |
| UserPermissions.NewUserRow | src/pages/UserPermissions.tsx:314-329 | the inserted row is unverified and pending and carries the form's name, e-mail, phone, role and subscription |
| UserPermissions.NewUserRowStored | src/pages/UserPermissions.tsx:308-326 | the inserted row's type comes from the role table and its permissions are the defaults then the form's list |
| UserPermissions.GrantsFor | src/pages/UserPermissions.tsx:338-342 | one active grant per form permission, in order, for the new user, granted by the signed-in admin |
| UserPermissions.CreatedGrants | src/pages/UserPermissions.tsx:337-352 | grants are inserted only for a non-empty list with someone signed in and a succeeding insert; otherwise none |
| UserPermissions.GetUserPermissions | src/pages/UserPermissions.tsx:453-455 | every listed grant belongs to the user and is active |
| UserPermissions.UserPermissionsExactly | src/pages/UserPermissions.tsx:453-455 | a grant is listed exactly when it is in the table, is the user's and is active; the order is kept |
| UserPermissions.Revoke | src/pages/UserPermissions.tsx:409-414 | revoking deactivates the grants with that id, keeps every other row and the length |
| UserPermissions.RevokedDropsOut | src/pages/UserPermissions.tsx:411-454 | after a revoke the grant is in no user's list and every other grant is listed as before |
| UserPermissions.FilteredUsers | src/pages/UserPermissions.tsx:445-451 | every listed user matches the lower-cased term in name, e-mail or role and the type filter |
| UserPermissions.FilteredUsersExactly | src/pages/UserPermissions.tsx:445-451 | a user is listed exactly when loaded and matching, and the list keeps the loaded order |
| UserPermissions.EmptySearchListsAll | src/pages/UserPermissions.tsx:445-451 | an empty term with the 'all' filter lists every user |
| UserPermissions.TypeCount | src/pages/UserPermissions.tsx:522-548 | a type card counts at most all users |
| UserPermissions.TypeCountIsCount | src/pages/UserPermissions.tsx:522-548 | a type card shows the number of positions in the user list holding a user of its type |
| UserPermissions.CardsAddUp | src/pages/UserPermissions.tsx:512-548 | the Administrators, Staff Members and Partners cards add up to at most the number of users, and to exactly that many when every user has one of the three types |
| UserPermissions.SelectUser | src/pages/UserPermissions.tsx:1037-1037 | the grant dialog picks the first user with the chosen id, and none exactly when no user has it |
| UserPermissions.PermissionsPage.constructor | src/pages/UserPermissions.tsx:95-112 | the page starts with the loaded users and grants, the initial form and both dialogs closed |
| UserPermissions.PermissionsPage.TogglePermission | src/pages/UserPermissions.tsx:457-464 | only the form's permission list changes, by `Toggle` |
| UserPermissions.PermissionsPage.HandleRoleChange | src/pages/UserPermissions.tsx:466-474 | the form becomes `ApplyRole` of the chosen role |
| UserPermissions.PermissionsPage.CreateUser | src/pages/UserPermissions.tsx:285-380 | the first failing check is alerted and nothing is written; a failed insert alerts and writes nothing; otherwise the row and its grants are added, the form resets, the dialog closes and success is alerted |
| UserPermissions.PermissionsPage.InsertUser | src/pages/UserPermissions.tsx:312-375 | after a successful insert: the row, the grants, the reset, the closed dialog and the success alert |
| UserPermissions.PermissionsPage.GrantPermission | src/pages/UserPermissions.tsx:382-407 | refused when nobody is signed in or the insert fails; otherwise one active grant with an expiry of '' stored as null is appended and the dialog closes |
| UserPermissions.PermissionsPage.RevokePermission | src/pages/UserPermissions.tsx:409-425 | a failed update changes nothing; otherwise the grant table becomes `Revoke` of it |
| Validation.IndexOf | src/pages/UserManagement.tsx:176-176 | the first index of a character, with no earlier occurrence |
| Validation.EmailCheckIff | src/pages/UserManagement.tsx:176-177 | the scan accepts exactly the strings `^[^\s@]+@[^\s@]+\.[^\s@]+$` matches (some split into three non-empty runs without whitespace or '@') |
| Validation.IsValidEmail | src/pages/UserManagement.tsx:176-177 | the e-mail test as a scan; `EmailCheckIff` proves it accepts exactly what `/^[^\s@]+@[^\s@]+\.[^\s@]+$/` matches |
| Validation.EmailScanSound | src/pages/UserManagement.tsx:176-177 | at the first '@', the scan's verdict agrees with the pattern |
| Validation.OnlyAt | src/pages/UserManagement.tsx:176-176 | an address the pattern accepts has only one '@', at the split point |
| Validation.PhoneShape | src/pages/UserManagement.tsx:183-184 | '+251' and a rest is a valid phone exactly when the rest is nine ASCII digits |
| Validation.IsValidPhone | src/pages/UserManagement.tsx:183-184 | `/^\+251[0-9]{9}$/`; `PhoneShape` and `PhoneLength` state which strings it accepts |
| Validation.PhoneLength | src/pages/UserManagement.tsx:183-184 | a valid phone has 13 characters; one more or one fewer is rejected |
| Validation.CheckNewUser | src/pages/UserManagement.tsx:170-187 | the checks in order: missing name, e-mail or phone first, then a bad e-mail, then a bad phone; none exactly when all pass |
| Validation.CheckNewUserPattern | src/pages/UserPermissions.tsx:288-305 | with the fields filled in, the form passes exactly when the e-mail matches the pattern and the phone is valid |
| Validation.EmailExamples | src/pages/UserManagement.tsx:176-176 | 'a@b.et' passes; a space, a second '@' or no dot after the '@' fails |
| UserManagement.StatsOf | src/pages/UserManagement.tsx:138-144 | the total is the list's length; the verified, pending and suspended counts never exceed it, and pending plus suspended never does either |
| UserManagement.VerifiedCount | src/pages/UserManagement.tsx:138-144 | the number of verified users; `StatsOf` and `StatsAppend` state its bounds and that it adds up over concatenation |
| UserManagement.StatusCount | src/pages/UserManagement.tsx:138-144 | the number of users with a status; `StatsOf` and `StatsAppend` state its bounds and that it adds up over concatenation |
| UserManagement.StatsAppend | src/pages/UserManagement.tsx:138-144 | the counts of two lists put together are the sums of their counts |
| UserManagement.FilteredUsers | src/pages/UserManagement.tsx:321-329 | every listed user matches the search (lower-cased name, e-mail or role, or raw phone), the status filter and the type filter |
| UserManagement.Listed | src/pages/UserManagement.tsx:321-329 | the page's search, status and type tests; `FilteredUsersExactly` proves a user is listed exactly when it holds |
| UserManagement.FilteredUsersExactly | src/pages/UserManagement.tsx:321-329 | a user is listed exactly when loaded and matching; the list keeps the loaded order |
| UserManagement.NoFilterListsAll | src/pages/UserManagement.tsx:321-329 | an empty search with both filters at 'all' lists every user |
| UserManagement.StatusFilterSelects | src/pages/UserManagement.tsx:326-326 | a status filter other than 'all' lists only users with that status |
| UserManagement.SetStatus | src/pages/UserManagement.tsx:247-249 | the rows with the id take the new status; every other field and every other row stays |
| UserManagement.SetVerified | src/pages/UserManagement.tsx:268-270 | the rows with the id take the new flag; every other field and every other row stays |
| UserManagement.SetStatusLastWins | src/pages/UserManagement.tsx:247-249 | a second update of the same id overrides the first; an id not loaded changes nothing |
| UserManagement.ToggleVerifiedTwice | src/pages/UserManagement.tsx:258-270 | toggling a user's verification twice from the flag shown gives back the list |
| UserManagement.NextToggleStatus | src/pages/UserManagement.tsx:629-629 | the row's button asks for 'suspended' exactly for an active user, 'active' otherwise |
| UserManagement.ToggleChangesStatus | src/pages/UserManagement.tsx:629-629 | the request always differs from the current status, and pressing twice ends at 'active' only from 'active' |
| UserManagement.InitialForm | src/pages/UserManagement.tsx:82-93 | the empty form is a customer, an end user, on pay-per-ride |
| UserManagement.RoleToType | src/pages/UserManagement.tsx:740-747 | admin roles map to 'admin', staff roles to 'staff', partner roles to 'partner', every other role to 'end_user' |
| UserManagement.RoleToTypeVsDefinitions | src/pages/UserManagement.tsx:740-747 | this page agrees with the permission page's role table on every role except customer_support, data_analyst, api_service, automated_system and test_account |
| UserManagement.SelectRole | src/pages/UserManagement.tsx:740-748 | the role select sets the role and its mapped type and nothing else |
| UserManagement.NewManagedRow | src/pages/UserManagement.tsx:189-206 | the inserted row keeps the form's role and type, is unverified, pending, with no balance or rides, and stores empty optional fields as null |
| UserManagement.InsertedTypeFollowsRole | src/pages/UserManagement.tsx:189-206 | a row inserted after a role pick carries that role's mapped type |
| UserManagement.HoursBetween | src/pages/UserManagement.tsx:313-313 | the whole hours elapsed, rounded down |
| UserManagement.TimeAgo | src/pages/UserManagement.tsx:315-318 | the four buckets by hours; `TimeAgoCount` and `TimeAgoReadsBack` state the number shown and that it reads back |
| UserManagement.FormatTimeAgo | src/pages/UserManagement.tsx:310-319 | `formatTimeAgo`: the bucket text of the whole hours between the two times |
| UserManagement.TimeAgoCount | src/pages/UserManagement.tsx:316-318 | the number shown is the hours, the whole days or the whole weeks of the bucket, in its range |
| UserManagement.TimeAgoReadsBack | src/pages/UserManagement.tsx:310-319 | the text is 'Less than an hour ago' or the count and its unit, and its first word parses back to the count |
| UserManagement.CsvHeader | src/pages/UserManagement.tsx:333-333 | the header has eleven cells |
| UserManagement.OrganizationLabel | src/pages/UserManagement.tsx:344-344 | the organization's name when it has a non-empty one, else 'None'; never empty |
| UserManagement.CsvFields | src/pages/UserManagement.tsx:334-346 | one cell per header column; the verified cell is 'Yes' exactly for a verified user |
| UserManagement.UserLines | src/pages/UserManagement.tsx:334-346 | one comma-joined line per listed user, in order |
| UserManagement.CsvLines | src/pages/UserManagement.tsx:332-347 | the header line and one line per user |
| UserManagement.ExportCsv | src/pages/UserManagement.tsx:331-347 | the CSV text: the lines joined by newlines; `CsvReadsBack` and `CommaInNameShiftsCells` state when it splits back into its cells |
| UserManagement.CsvReadsBack | src/pages/UserManagement.tsx:331-347 | with no comma or line break in any cell, splitting the export on line breaks and commas gives back the header and each user's cells |
| UserManagement.CommaInNameShiftsCells | src/pages/UserManagement.tsx:334-346 | a comma in a name is not quoted, so that line reads back as twelve cells |
| UserManagement.UserManagementPage.constructor | src/pages/UserManagement.tsx:74-99 | the page starts with no users, zero counts, the initial form and the dialog closed |
| UserManagement.UserManagementPage.FetchUsers | src/pages/UserManagement.tsx:106-150 | a successful fetch replaces the list and recomputes the counts; a failed one changes neither |
| UserManagement.UserManagementPage.HandleRoleSelect | src/pages/UserManagement.tsx:740-748 | the form becomes `SelectRole` of the chosen role |
| UserManagement.UserManagementPage.CreateUser | src/pages/UserManagement.tsx:167-235 | the first failing check is alerted and nothing changes; a failed insert alerts and changes nothing; otherwise the row is inserted, the list refetched, the form reset, the dialog closed and success alerted |
| UserManagement.UserManagementPage.UpdateUserStatus | src/pages/UserManagement.tsx:237-256 | a failed write alerts and changes nothing; otherwise the table row and the loaded rows take the status and the new status is alerted |
| UserManagement.UserManagementPage.ToggleUserVerification | src/pages/UserManagement.tsx:258-277 | a failed write alerts and changes nothing; otherwise the negation of the shown flag is written and alerted |
| BikeManagement.FilteredBikes | src/pages/BikeManagement.tsx:167-173 | every listed bike matches the lower-cased term in its code, model or location and the status filter |
| BikeManagement.Listed | src/pages/BikeManagement.tsx:167-173 | the page's search and status tests; `FilteredBikesExactly` proves a bike is listed exactly when it holds |
| BikeManagement.FilteredBikesExactly | src/pages/BikeManagement.tsx:167-173 | a bike is listed exactly when loaded and matching; the loaded order is kept |
| BikeManagement.NoLocationStillMatches | src/pages/BikeManagement.tsx:168-170 | a bike without a location still matches a term its code contains |
| BikeManagement.NoFilterListsAll | src/pages/BikeManagement.tsx:167-173 | an empty search with the 'all' filter lists every bike |
| BikeManagement.StatsOf | src/pages/BikeManagement.tsx:176-181 | the available, in-use and maintenance counts together, and the low-battery count, never exceed the number of bikes |
| BikeManagement.StatusCount | src/pages/BikeManagement.tsx:176-178 | the number of bikes with a status; `StatsOf` and `StatsAppend` state its bounds and that it adds up over concatenation |
| BikeManagement.LowBatteryCount | src/pages/BikeManagement.tsx:179-179 | the number of bikes below 30 %; `BatteryColorRanges` shows that 30 is not low |
| BikeManagement.StatsAppend | src/pages/BikeManagement.tsx:176-181 | the counts of two lists put together are the sums of their counts |
| BikeManagement.BatteryColorRanges | src/pages/BikeManagement.tsx:161-165 | green exactly above 60, yellow exactly in 31..60, red exactly at 30 or below; a bike at 30 is red but not counted as low |
| BikeManagement.BatteryColor | src/pages/BikeManagement.tsx:161-165 | green above 60, yellow above 30, red otherwise; `BatteryColorRanges` states the ranges |
| BikeManagement.InitialBikeForm | src/pages/BikeManagement.tsx:50-57 | the empty form is an available Urban Classic at full battery with no code or location |
| BikeManagement.KnownLocations | src/pages/BikeManagement.tsx:515-525 | the select lists ten locations |
| BikeManagement.AmharicFilledIff | src/pages/BikeManagement.tsx:490-510 | an Amharic name is filled in exactly for the ten listed locations |
| BikeManagement.AmharicName | src/pages/BikeManagement.tsx:490-505 | the Amharic name for each listed location, '' otherwise; `AmharicFilledIff` and `AmharicDistinct` state when it is filled and that the names differ |
| BikeManagement.AmharicDistinct | src/pages/BikeManagement.tsx:493-503 | no two listed locations share an Amharic name |
| BikeManagement.SelectLocation | src/pages/BikeManagement.tsx:490-510 | the location select sets the location and its Amharic name and nothing else |
| BikeManagement.QrCodeReadsBack | src/pages/BikeManagement.tsx:89-89 | for a code without '-', the QR code splits into 'QR', the code and the timestamp's digits, which parse back to the timestamp |
| BikeManagement.QrCodeIsJoin | src/pages/BikeManagement.tsx:89-89 | the QR code is its three parts joined by '-' |
| BikeManagement.QrCode | src/pages/BikeManagement.tsx:89-89 | `QR-${bike_code}-${Date.now()}`; `QrCodeReadsBack` and `QrCodeIsJoin` state that it splits back into its parts |
| BikeManagement.NoDashInNumber | src/pages/BikeManagement.tsx:89-89 | a non-negative timestamp's digits hold no '-' |
| BikeManagement.CheckNewBike | src/pages/BikeManagement.tsx:83-86 | the form passes exactly when the code and the location are filled in; otherwise the one alert |
| BikeManagement.NewBike | src/pages/BikeManagement.tsx:91-103 | the inserted record carries the form's fields and the QR code, no rides or distance, and null for an empty Amharic name |
| BikeManagement.LocationAutoFillStored | src/pages/BikeManagement.tsx:98-98 | after picking a listed location the new bike stores its Amharic name; any other location stores none |
| BikeManagement.SetStatus | src/pages/BikeManagement.tsx:140-142 | the rows with the id take the new status; every other field and every other row stays |
| BikeManagement.SetStatusRestores | src/pages/BikeManagement.tsx:140-142 | setting the status back to the one shown restores the list |
| BikeManagement.BikeManagementPage.constructor | src/pages/BikeManagement.tsx:45-57 | the page starts with no bikes, the initial form, the dialog closed and nothing inserted |
| BikeManagement.BikeManagementPage.FetchBikes | src/pages/BikeManagement.tsx:63-78 | a successful fetch replaces the list; a failed one keeps it |
| BikeManagement.BikeManagementPage.HandleLocationSelect | src/pages/BikeManagement.tsx:490-510 | the form becomes `SelectLocation` of the chosen location |
| BikeManagement.BikeManagementPage.HandleBatteryInput | src/pages/BikeManagement.tsx:458-458 | the battery field becomes `parseInt` of the input's text |
| BikeManagement.BikeManagementPage.CreateBike | src/pages/BikeManagement.tsx:80-128 | a failing check or insert alerts and changes nothing; otherwise the record is inserted, the list refetched, the form reset, the dialog closed and success alerted |
| BikeManagement.BikeManagementPage.UpdateBikeStatus | src/pages/BikeManagement.tsx:130-149 | a failed write alerts and changes nothing; otherwise the table row and the loaded rows take the status and it is alerted |
| UserTypes.Entry | src/pages/UserTypes.tsx:50-56 | a new entry has the user's key and the given count |
| UserTypes.IndexOfKey | src/pages/UserTypes.tsx:43-44 | the first entry with the key, or -1 exactly when no entry has it |
| UserTypes.AddUserDistinct | src/pages/UserTypes.tsx:42-58 | adding a user keeps the keys of the entries distinct |
| UserTypes.AggregateDistinct | src/pages/UserTypes.tsx:40-58 | the aggregated entries have distinct keys |
| UserTypes.AddUserNew | src/pages/UserTypes.tsx:49-56 | a user with a new key appends an entry counting one |
| UserTypes.AddUser | src/pages/UserTypes.tsx:43-56 | one `forEach` step; `AddUserNew`, `AddUserFound` and `AddUserDistinct` state its effect |
| UserTypes.Aggregate | src/pages/UserTypes.tsx:40-60 | the aggregation of the rows in Map insertion order; `AggregateIsGroupBy`, `AggregateEntries`, `AggregateOrder` and `TotalIsUserCount` state its result |
| UserTypes.AddUserFound | src/pages/UserTypes.tsx:44-48 | a user with a known key adds one to that entry's count only |
| UserTypes.AggregateIsGroupBy | src/pages/UserTypes.tsx:40-60 | the loop's result is one entry per key, in the order keys first appear, counting the users with that key |
| UserTypes.AggregateEntries | src/pages/UserTypes.tsx:40-60 | every entry counts at least one user and is built from the first user with its key |
| UserTypes.AggregateCoversUsers | src/pages/UserTypes.tsx:40-60 | every user's key has an entry |
| UserTypes.AggregateOrder | src/pages/UserTypes.tsx:40-60 | entries are in the order their keys first appear |
| UserTypes.TotalIsUserCount | src/pages/UserTypes.tsx:132-132 | the counts add up to the number of fetched users |
| UserTypes.KeyInjective | src/pages/UserTypes.tsx:43-43 | for roles without '-', equal keys mean equal role and type |
| UserTypes.KeyCollision | src/pages/UserTypes.tsx:43-43 | roles or types with '-' can collide: ('a-b','c') and ('a','b-c') share one entry counting two |
| UserTypes.UserKey | src/pages/UserTypes.tsx:43-43 | the grouping key `${user_role}-${user_type}`; `KeyInjective` and `KeyCollision` state when two users share it |
| UserTypes.CardsAddUp | src/pages/UserTypes.tsx:154-155 | the five type cards add up to at most the total, and to the total exactly when every entry has one of the five types |
| UserTypes.TypeCardCountsUsers | src/pages/UserTypes.tsx:154-155 | for roles without '-', a type card counts exactly the users of that type |
| UserTypes.TypeCard | src/pages/UserTypes.tsx:154-155 | the sum of the counts of the entries of a type; `CardsAddUp` and `TypeCardCountsUsers` state its value |
| UserTypes.RoleCountUndercounts | src/pages/UserTypes.tsx:298-298 | a role held under two types shows fewer users than it has, because only the first entry's count is taken |
| UserTypes.RoleCount | src/pages/UserTypes.tsx:298-298 | `find(...)?.count || 0`: the first entry with the role; `RoleCountUndercounts` shows it can miss later entries |
| UserTypes.RoleTotalAtLeast | src/pages/UserTypes.tsx:298-298 | the users of a role are at least those of any one of its entries |
| UserTypes.DescriptionIff | src/pages/UserTypes.tsx:88-123 | 'Unknown role' shows exactly for roles outside the table, and the table names the same roles as the permission page's |
| UserTypes.RoleDescription | src/pages/UserTypes.tsx:88-123 | the role's description, or 'Unknown role'; `DescriptionIff` states when each shows |
| UserTypes.FilteredTypes | src/pages/UserTypes.tsx:125-130 | every listed entry matches the lower-cased term in role or type and the type filter |
| UserTypes.FilteredTypesExactly | src/pages/UserTypes.tsx:125-130 | an entry is listed exactly when it exists and matches; the order is kept |
| UserTypes.GroupIntoMap | src/pages/UserTypes.tsx:40-58 | the `forEach` loop's map, in insertion order, holds exactly the aggregated entries |
| UserTypes.MapValues | src/pages/UserTypes.tsx:60-60 | `Array.from(typeMap.values())` lists the map's entries in insertion order |
| UserTypes.UserTypesPage.constructor | src/pages/UserTypes.tsx:14-15 | the page starts loading with no entries |
| UserTypes.UserTypesPage.FetchUserTypes | src/pages/UserTypes.tsx:23-66 | a successful fetch sets the entries to the aggregate of the rows; a failed one keeps them; loading ends either way |
| UseSupabase.ApplyChange | src/hooks/useSupabase.ts:117-127 | an INSERT lengthens the list by one, an UPDATE keeps its length, a DELETE never lengthens it |
| UseSupabase.ApplyBikeChange | src/hooks/useSupabase.ts:117-127 | after a DELETE no bike has the deleted id |
| UseSupabase.ApplyAlertChange | src/hooks/useSupabase.ts:161-169 | the alert channel ignores DELETE: the list stays |
| UseSupabase.InsertPrepends | src/hooks/useSupabase.ts:118-119 | an INSERT puts the new row first, the old list behind it |
| UseSupabase.UpdateReplaces | src/hooks/useSupabase.ts:120-123 | an UPDATE replaces each row with the event's id and keeps every other |
| UseSupabase.UpdateAbsent | src/hooks/useSupabase.ts:120-123 | an UPDATE for an id not in the list changes nothing |
| UseSupabase.UpdateTwice | src/hooks/useSupabase.ts:120-123 | receiving the same UPDATE twice is receiving it once |
| UseSupabase.DeleteRemoves | src/hooks/useSupabase.ts:124-125 | a DELETE keeps exactly the rows with another id, in order |
| UseSupabase.DeleteAbsent | src/hooks/useSupabase.ts:124-125 | a DELETE for an id not in the list changes nothing |
| UseSupabase.InsertThenDelete | src/hooks/useSupabase.ts:117-127 | deleting the row just inserted gives what the delete alone gives |
| UseSupabase.AlertsKeepDeleted | src/hooks/useSupabase.ts:161-169 | a deleted alert stays in the alert list, where the bike handling would drop it |
| UseSupabase.MarkResolved | src/hooks/useSupabase.ts:181-183 | the list keeps its length |
| UseSupabase.MarkResolvedExactly | src/hooks/useSupabase.ts:181-183 | exactly the alerts with the id become resolved; ids and other columns stay; none becomes unresolved |
| UseSupabase.MarkResolvedTwice | src/hooks/useSupabase.ts:178-187 | resolving twice is resolving once |
| UseSupabase.BuildQuery | src/hooks/useSupabase.ts:23-42 | the query selects the given columns or '*', has one condition per filter entry in order, the ordering with descending as default, and the limit only when it is set and not 0 |
| UseSupabase.ErrorText | src/hooks/useSupabase.ts:49-49 | the error's message, or 'An error occurred' for a thrown non-error |
| UseSupabase.QueryHook.constructor | src/hooks/useSupabase.ts:15-17 | no data, loading, no error |
| UseSupabase.QueryHook.FetchData | src/hooks/useSupabase.ts:20-53 | rows replace the data (null gives the empty list), a failure sets the error and keeps the data; loading ends either way |
| UseSupabase.QueryHook.Refetch | src/hooks/useSupabase.ts:58-58 | `refetch` only sets loading |
| UseSupabase.BikeStatusHook.constructor | src/hooks/useSupabase.ts:97-98 | no bikes, loading |
| UseSupabase.BikeStatusHook.InitialFetch | src/hooks/useSupabase.ts:102-105 | the fetched rows replace the list and loading ends |
| UseSupabase.BikeStatusHook.OnChange | src/hooks/useSupabase.ts:117-127 | the list becomes `ApplyBikeChange` of the event |
| UseSupabase.SystemAlertsHook.constructor | src/hooks/useSupabase.ts:141-142 | no alerts, loading |
| UseSupabase.SystemAlertsHook.InitialFetch | src/hooks/useSupabase.ts:146-149 | the fetched rows replace the list and loading ends |
| UseSupabase.SystemAlertsHook.OnChange | src/hooks/useSupabase.ts:161-169 | the list becomes `ApplyAlertChange` of the event |
| UseSupabase.SystemAlertsHook.ResolveAlert | src/hooks/useSupabase.ts:178-187 | a failed remote call changes nothing; otherwise the list becomes `MarkResolved` of it |
| PhoneVerification.FirstMatch | mobile/src/screens/auth/PhoneVerificationScreen.tsx:86-86 | the leftmost position where '+251' and nine digits start, with no match before it; none exactly when there is no match anywhere |
| PhoneVerification.MatchAt | mobile/src/screens/auth/PhoneVerificationScreen.tsx:86-86 | the pattern `(\+251)(\d{2})(\d{3})(\d{4})` matches at a position; `FirstMatch` gives the leftmost such position |
| PhoneVerification.FormatPhoneNumber | mobile/src/screens/auth/PhoneVerificationScreen.tsx:83-89 | a string not starting with '+251', or without a match, is shown unchanged; otherwise three blanks are added |
| PhoneVerification.FormatEthiopian | mobile/src/screens/auth/PhoneVerificationScreen.tsx:83-89 | '+251' and nine digits, with anything after them, show as '+251 DD DDD DDDD' and the rest |
| PhoneVerification.Spaced | mobile/src/screens/auth/PhoneVerificationScreen.tsx:86-86 | the replacement `$1 $2 $3 $4` at a match; `FormatEthiopian` and `FormatOnlyAddsSpaces` state its result |
| PhoneVerification.FormatExample | mobile/src/screens/auth/PhoneVerificationScreen.tsx:84-86 | '+251911234567' shows as '+251 91 123 4567' |
| PhoneVerification.FormatLaterMatch | mobile/src/screens/auth/PhoneVerificationScreen.tsx:85-86 | the pattern is not anchored: '+2519+251911234567' is spaced at its second '+251' |
| PhoneVerification.LaterMatchFirst | mobile/src/screens/auth/PhoneVerificationScreen.tsx:86-86 | in '+2519+251911234567' the first match is at position 5 |
| PhoneVerification.FormatOnlyAddsSpaces | mobile/src/screens/auth/PhoneVerificationScreen.tsx:83-89 | removing the blanks of the display gives the input with its blanks removed |
| PhoneVerification.StripSpaces | mobile/src/screens/auth/PhoneVerificationScreen.tsx:86-86 | the result holds no blank and is no longer than the input |
| PhoneVerification.CodeDigitsNotChecked | mobile/src/screens/auth/PhoneVerificationScreen.tsx:45-48 | any six characters pass the check, digits or not; five or seven do not |
| PhoneVerification.CodeAccepted | mobile/src/screens/auth/PhoneVerificationScreen.tsx:45-48 | the code goes on exactly when it has six characters; `CodeDigitsNotChecked` shows the characters are not checked |
| PhoneVerification.ResendLabel | mobile/src/screens/auth/PhoneVerificationScreen.tsx:149-149 | the label is exactly 'Resend Code' when resending is allowed, otherwise it shows the seconds left |
| PhoneVerification.VerificationScreen.constructor | mobile/src/screens/auth/PhoneVerificationScreen.tsx:24-27 | the screen mounts with an empty code, 60 seconds to go, resending closed and the interval set |
| PhoneVerification.VerificationScreen.Tick | mobile/src/screens/auth/PhoneVerificationScreen.tsx:29-42 | one second counts down; the last one opens resending, sets 0 and clears the interval; a cleared interval does nothing; the timer stays in 0..60 |
| PhoneVerification.VerificationScreen.HandleResendCode | mobile/src/screens/auth/PhoneVerificationScreen.tsx:67-81 | nothing while resending is closed; otherwise the timer is back at 60, resending closes and the alert shows, with no interval running |
| PhoneVerification.VerificationScreen.HandleVerifyCode | mobile/src/screens/auth/PhoneVerificationScreen.tsx:44-65 | a code of the wrong length alerts an error; otherwise the success alert shows and loading ends |
| PhoneVerification.ResendThenTicks | mobile/src/screens/auth/PhoneVerificationScreen.tsx:29-81 | after a resend, any number of ticks leaves the timer at 60 with resending closed |
| PhoneVerification.SixtyTicks | mobile/src/screens/auth/PhoneVerificationScreen.tsx:24-42 | from the mount, sixty ticks open resending at 0 |
| PhoneVerification.VerificationScreen.HandleResendCodeRestarting | mobile/src/screens/auth/PhoneVerificationScreen.tsx:67-81 | the resend with the interval restarted: the timer is back at 60, resending closes and the countdown runs |
| PhoneVerification.ResendThenSixtyTicks | mobile/src/screens/auth/PhoneVerificationScreen.tsx:29-81 | with the restarted countdown, sixty ticks after a resend open resending again |
| RegisterScreen.ValidateForm | mobile/src/screens/auth/RegisterScreen.tsx:44-68 | the checks in order, each message exactly under its condition: a missing name, e-mail, phone or password, then a mismatch, then a password under six characters, then a phone the pattern rejects; none exactly when all pass |
| RegisterScreen.ValidateMessages | mobile/src/screens/auth/RegisterScreen.tsx:44-68 | only the four messages are ever shown |
| RegisterScreen.FirstFailureWins | mobile/src/screens/auth/RegisterScreen.tsx:44-68 | the order decides: a short unconfirmed password is a mismatch, an empty confirmation is a mismatch, and the e-mail's shape is not checked |
| RegisterScreen.RegisterScreenState.constructor | mobile/src/screens/auth/RegisterScreen.tsx:29-38 | the screen starts with an empty form, not loading, no sign-up and no alert |
| RegisterScreen.RegisterScreenState.HandleInputChange | mobile/src/screens/auth/RegisterScreen.tsx:40-42 | a known field name sets that field only; any other name leaves the fields the screen reads |
| RegisterScreen.RegisterScreenState.HandleRegister | mobile/src/screens/auth/RegisterScreen.tsx:70-90 | a failing form alerts its message and calls nothing; otherwise signUp is called once with the form's data, then the success or failure alert shows and loading ends |
| Login.FindIn | src/pages/Login.tsx:39-39 | the first account with the e-mail, and none exactly when no account has it |
| Login.FindDemo | src/pages/Login.tsx:18-39 | the demo account found has the e-mail and is one of the listed accounts; none exactly when no demo account has it |
| Login.DemoAccounts | src/pages/Login.tsx:18-29 | the ten demo accounts; `DemoEmailsDistinct` proves each e-mail finds its own account |
| Login.DemoEmailsDistinct | src/pages/Login.tsx:18-29 | each demo e-mail finds its own account |
| Login.DropSpaceRun | src/pages/Login.tsx:53-53 | a leading run of whitespace is dropped whole |
| Login.Underscored | src/pages/Login.tsx:53-53 | `replace(/\s+/g, '_')` leaves no whitespace |
| Login.UnderscoredTwoWords | src/pages/Login.tsx:53-53 | two words around one blank become the words joined by '_' |
| Login.RoleSlug | src/pages/Login.tsx:53-53 | the slug holds no whitespace |
| Login.SlugOfTwoWords | src/pages/Login.tsx:53-53 | a two-word role's slug is its lower-cased words joined by '_' |
| Login.SlugSuperAdmin | src/pages/Login.tsx:19-53 | 'Super Admin' becomes 'super_admin' |
| Login.SlugCustomerSupport | src/pages/Login.tsx:22-53 | 'Customer Support' becomes 'customer_support' |
| Login.CustomerSupportType | src/pages/Login.tsx:22-22 | the demo Customer Support account is of type 'admin', where the permission page's role table says 'staff' |
| Login.DemoOrgName | src/pages/Login.tsx:60-61 | 'Addis Ababa University' when the description names a University, else 'Ethiopian Airlines' when it says Corporate, else none |
| Login.DemoUser | src/pages/Login.tsx:48-64 | the mock user has the account's e-mail, role as name, slug as role and type, is verified and active, has an organization exactly for end users, and an id made of the type and the time |
| Login.UniversityExample | src/pages/Login.tsx:24-60 | the student account's organization is Addis Ababa University |
| Login.CorporateExample | src/pages/Login.tsx:25-61 | the corporate account's description names Corporate |
| Login.DemoOutcome | src/pages/Login.tsx:41-73 | a demo sign-in is refused exactly for an empty password; otherwise it logs in the mock user with a welcome |
| Login.DatabaseOutcome | src/pages/Login.tsx:77-119 | a query error, a missing user, an inactive account and an empty password are refused in that order; otherwise the row logs in with a welcome |
| Login.Welcome | src/pages/Login.tsx:66-66 | the success text `Welcome <name>! Logging you in...`; `DemoOutcome` and `DatabaseOutcome` state when it is shown |
| Login.SubmitOutcome | src/pages/Login.tsx:37-119 | a demo e-mail takes the demo path, any other the database path |
| Login.PasswordNeverCompared | src/pages/Login.tsx:37-119 | any two non-empty passwords give the same outcome |
| Login.CheckOrder | src/pages/Login.tsx:100-112 | a missing user and an inactive account are reported before an empty password |
| Login.LoginPage.constructor | src/pages/Login.tsx:11-29 | the page starts with empty fields, no messages, no lookup and no pending sign-in |
| Login.LoginPage.HandleSubmit | src/pages/Login.tsx:31-127 | only a non-demo e-mail is looked up; a success shows the welcome and schedules the user, a refusal shows the message; loading ends |
| Login.LoginPage.Show | src/pages/Login.tsx:66-123 | a success sets the welcome and the pending user, a refusal sets the error |
| Login.LoginPage.HandleDemoLogin | src/pages/Login.tsx:129-132 | the demo button fills in the e-mail and 'demo123' |
| Login.DemoClickThenSubmit | src/pages/Login.tsx:31-132 | clicking a demo account and signing in always succeeds with that account's slug, without a lookup |


## Findings

| source | as written | input that shows it | evidently intended | confidence | as-written member | corrected member |
|---|---|---|---|---|---|---|
| mobile/src/screens/auth/PhoneVerificationScreen.tsx:29-81 | the interval that counts down is cleared when it reaches 0 and the effect never runs again, so `handleResendCode` sets the timer back to 60 with nothing left to count it down | mount, sixty ticks, press resend, then any number of ticks: the label stays 'Resend Code (60s)' and resending stays closed for good | a resend restarts the countdown, so resending opens again sixty seconds later | high; not executed | PhoneVerification.ResendThenTicks | PhoneVerification.ResendThenSixtyTicks |
| src/contexts/LanguageContext.tsx:463-498 | `t` splits every dotted key on '.' and walks one property per segment, but every dictionary entry is a flat property whose name is the whole dotted key, so the walk never finds a value | `t('nav.dashboard')` returns 'dashboard' in every language, where the dictionaries hold 'Dashboard', 'ዳሽቦርድ' and 'Gabatee Hojii'. No page in src/ calls `t` yet (the sidebar in src/components/Layout.tsx renders fixed labels), so nothing on screen shows it today | the whole key is looked up as one property, with the same English retry and fallback | high; not executed | LanguageContext.DashboardKeyShowsLastSegment | LanguageContext.DashboardKeyFlat |

## Left out

- Backend I/O: every Supabase query, insert and update, the `dbHelpers` wrappers and the realtime channel subscriptions are not modelled. A query's result is a parameter (`Option` or a `Lookup`/`QueryResult` value, with `None` or a flag for a failure). A write is a change to a field that stands for the remote table.
- Timers and clocks: `setInterval` and `setTimeout` scheduling is not modelled. One interval callback is one `Tick` call. `new Date()` and `Date.now()` are parameters in milliseconds.
- `Math.random()` mock coordinates on the map and the haversine distance are left out. No model function consults `maxDistance`, matching the source.
- The dashboard statistics hook `useDashboardStats` is left out. It only forwards `dbHelpers.getDashboardStats`, which is not part of this model, on a 30-second poll.
- Floating point: trip distance is whole metres and money is whole cents. The model's figures are exact multiples of 200 m and 40 cents. The source multiplies in binary floating point (`minutes * 0.2`, then `5 + newDistance * 2`), so the values it shows and stores as `distance_km` and `cost_etb` can differ from these by a rounding error (`3 * 0.2` is 0.6000000000000001). On screen, only `toFixed(2)` hides that error. `toFixed` display formatting and the percentage bars are left out.
- UserManagement.CsvFields: the wallet balance is a whole number written with `IntToString`. JavaScript's number-to-text of a fractional balance is not modelled.
- UserManagement.CsvFields: the creation date's `toLocaleDateString` text is a function parameter. So is the locale.
- The CSV download itself (the Blob, the object URL and the dated file name) is left out.
- Text.Lower: lower-cases only ASCII letters. Unicode case folding, which `toLowerCase` also does, changes no character of the listed roles, statuses and locations.
- Text.ParseInt: decimal only. It trims JavaScript whitespace and reads a sign and the leading digits. The '0x' hexadecimal prefix `parseInt` also accepts is not modelled.
- String lengths count Unicode characters, where JavaScript counts UTF-16 code units. The two agree outside the astral planes, which covers every Amharic and Latin text here. The six-character code and password checks and the thirteen-character phone are stated in characters.
- LanguageContext: dictionaries are Dafny maps. The JavaScript object prototype is not modelled: a walk through a segment such as 'constructor' finds nothing here, where JavaScript would reach an inherited member.
- UserTypes.DescriptionIff: the descriptions table is a Dafny map, so 'Unknown role' is shown for every role outside it. In the source (src/pages/UserTypes.tsx:122), `descriptions[userRole]` on an object literal returns an inherited, truthy function for a role named after an Object.prototype member, such as 'constructor', 'toString' or 'hasOwnProperty'. For those roles the source does not show 'Unknown role', and `UserTypes.RoleDescription` does not model that case. The permission page's role lookups give the same result either way, because an inherited function has no `type` or `permissions` property.
- LanguageContext.ShippedDictionaries: holds only the navigation entries of the three dictionaries. These are enough to show that dotted keys never resolve. The other several hundred entries are not copied.
- LanguageContext: `localStorage` is a string-to-string map field, and `document.dir` is a field.
- MobileLanguageContext: AsyncStorage is a map field and i18next is the language it was last switched to. Rejected promises are boolean parameters. `getLocales()[0].languageCode` is an `Option` parameter.
- UseSupabase.BuildQuery: `Object.entries(filter)` is taken as the given list of pairs in its order. Filter values are strings; other JSON values are not modelled.
- UseSupabase.SystemAlertsHook.ResolveAlert: the remote `resolveAlert` call is a success-or-failure parameter. Its hard-coded admin id is not modelled.
- UserPermissions: grant ids come from a counter on the page. The database generates them in the source.
- UserPermissions.PermissionsPage: the refetches after a write are not modelled. The page keeps the rows it loaded, appends the rows it inserts, and keeps a revoked grant with `isActive` false. The source instead reloads the users ordered by `full_name` and only the active grants, newest `granted_at` first. So the model does not capture the order of either list, or the "Active Permissions" card (`permissions.length`). `UserPermissions.GetUserPermissions` lists the same grants of a user either way.
- Login.LoginPage.HandleSubmit: the 1.5-second delay before `onLogin` is not modelled. The user it would be called with is recorded as `pendingLogin`.
- Login.SlugSuperAdmin and Login.SlugCustomerSupport are the only demo slugs proved one by one. `Login.SlugOfTwoWords` gives every two-word role's slug.
- Presentation is left out: JSX, styles, colour and icon tables, navigators, and the onboarding slides' subtitles, descriptions and images. Navigation requests are recorded as the list of target screen names.
- EthiopianCalendar.ConvertToEthiopian: date-string parsing and the time zone are not modelled. Its input is the year, zero-based month and day that `Date` would read, or `None` for an unparsable string.
