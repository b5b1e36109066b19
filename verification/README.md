# Dance-studio booking mini program, modelled in Dafny

This project models the logic of a WeChat mini program for a dance studio. Members use it to browse and book courses, look at teachers and manage their profile. Administrators use it to manage teachers, courses, students, notifications and settings, and to read statistics. The whole interface switches between Chinese and English.

The centre of the model is the translation registry:

- `I18n` holds the active language code and that language's table.
- The registry's setter accepts only `zh-CN` and `en`, and writes the choice to storage.
- The lookup `t` falls back to the key itself and substitutes `{name}` placeholders one parameter at a time.
- The constructor restores the language from storage.

Three consumers read the registry: the tab bar (`TabBar`), the language-switch button (`LanguageSwitch`) and the settings page (`SettingsPage`). `LocaleEn` is the English table, kept as a constant map. `EnglishScenarios` checks concrete lookups against it.

Around that centre sit the rules of the pages and utilities:

- the app's login and store state (`AppState`);
- the mock server's routing, filters and pagination (`MockApi`);
- the request wrapper's query string, headers, response handling and error messages (`Http`);
- the date, relative-time and phone formatters (`TimeFormat`);
- the image CDN lookup (`Cdn`);
- the list pages' shared guarded load and merge (`Paging`, `CourseList`, `TeacherList`, `TeacherDetail`, `Profile`);
- booking and capacity (`Capacity`, `BookingPage`, `CourseDetail`, `HomePage`);
- the QR-code and SMS countdowns (`Countdown`);
- the admin pages (`AdminLogin`, `Notification`, `AdminSettings`, `TeacherEdit`, `TeacherManage`, `CourseManage`, `StudentManage`, `Statistics`, with the shared filter menus in `AdminFilters` and the confirmation dialog in `Modal`).

JavaScript values that pass through storage and page data are the datatype `JsValue.Value`, and the model keeps JavaScript's truthiness rules. Storage is a map from keys to values, and reading a missing key gives `''`. Dialog answers, clock readings, random parts and server answers are parameters. A timer is a sequence of ticks. Each load is one synchronous step.

## Behaviour worth knowing

The code behaves as follows, and the model follows it:

- **Stored language code.** The constructor keeps any non-empty stored code as the language, even an unsupported one. It then uses the Chinese table for it. An unsupported stored value is therefore not replaced by the default code (`I18n.UnsupportedStoredCode`).
- **Empty translations.** `t` falls back to the key when the entry is missing and also when it is empty (`I18n.MissingKeyFallsBack`).
- **Order of substitution.** Placeholders are substituted one parameter at a time, in key order. A value that itself contains a later placeholder is rewritten again (`I18n.SubstitutionIsSequential`).
- **Language-switch button.** The button does not notify the other pages. It only raises a `languagechange` event on itself (`LanguageSwitch.ClickEffects`).
- **Settings-page fan-out.** The fan-out over live pages sits in the settings page. As written it throws before reaching any page, because the app has no `switchLanguage` (see Findings).

## Model

| member | source | states |
|---|---|---|
| I18n.TableFor | miniprogram/utils/i18n.js:5-8 | exactly the codes `'zh-CN'` and `'en'` have a table, and each selects its own |
| I18n.SupportedLanguages | miniprogram/utils/i18n.js:51-53 | `['zh-CN', 'en']`: the default first, and a code is listed exactly when it has a table |
| I18n.Create | miniprogram/utils/i18n.js:14-18 | the stored language when it is a non-empty string, else `'zh-CN'`; the table of that code, or the Chinese table when the code is unsupported |
| I18n.SetLanguage | miniprogram/utils/i18n.js:21-30 | accepted exactly for a supported code; then language, table and stored `'language'` all follow the code; on refusal nothing changes |
| I18n.Placeholder | miniprogram/utils/i18n.js:43 | the text the per-parameter pattern matches is the name wrapped in one pair of braces |
| I18n.InterpolateTemplate | miniprogram/utils/i18n.js:42-45 | with brace-free pieces and values, the loop fills every placeholder that has a parameter and leaves every other placeholder literally in place |
| I18n.TranslateTemplate | miniprogram/utils/i18n.js:38-48 | `t` on a template-shaped entry is the template with its supplied placeholders filled |
| I18n.MissingKeyFallsBack | miniprogram/utils/i18n.js:39-47 | a key whose entry is missing or empty, and which holds no `{`, comes back unchanged whatever the parameters' names and values |
| I18n.SubstitutionIsSequential | miniprogram/utils/i18n.js:42-45 | a value holding `{q}` is rewritten when `q` comes later in key order and kept when it comes earlier |
| I18n.SetThenGet | miniprogram/utils/i18n.js:21-35 | after a successful switch `getLanguage` reports the new code and lookups read its table |
| I18n.PersistenceRoundTrip | miniprogram/utils/i18n.js:14-27 | constructing from the storage `setLanguage` wrote gives back the same registry |
| I18n.SetLanguageIdempotent | miniprogram/utils/i18n.js:21-30 | selecting the active supported language again changes nothing |
| I18n.FreshStart | miniprogram/utils/i18n.js:16-17 | with nothing stored the registry is `'zh-CN'` with the Chinese table |
| I18n.UnsupportedStoredCode | miniprogram/utils/i18n.js:16-17 | an unsupported stored code is still reported by `getLanguage`, while the Chinese table is used |
| TabBar.SetTabBarLanguage | miniprogram/utils/language.js:4-39 | exactly three items, for tabs 0, 1 and 2 in order, each with that tab's label |
| TabBar.InitLanguageLabels | miniprogram/utils/language.js:4-44 | at start-up the three tabs, in order, get the English labels for `'en'` and the fixed Chinese labels for any other code |
| TabBar.EnglishLabels | miniprogram/utils/language.js:7-21 | in English the labels are `t('navbar.home')`, `t('navbar.booking')` and `t('navbar.profile')` |
| TabBar.OtherLabels | miniprogram/utils/language.js:22-38 | any other language, unsupported stored codes included, shows `'首页'`, `'预约'`, `'我的'` |
| TabBar.LabelsDependOnLanguage | miniprogram/utils/language.js:4-39 | two registries with the same language and navbar entries give the same tab bar, so repeated calls agree |
| LanguageSwitch.ButtonText | miniprogram/components/language-switch.ts:20 | `'EN'` exactly when the language is `'zh-CN'`, `'中文'` otherwise |
| LanguageSwitch.Target | miniprogram/components/language-switch.ts:30-31 | the target is always a supported code, and it is `'en'` exactly when the current code is `'zh-CN'` |
| LanguageSwitch.ClickEffects | miniprogram/components/language-switch.ts:27-53 | a click always succeeds and lands on the other language; the choice is persisted; the effects are set, tab-bar update, then `'languagechange'` with the new code |
| LanguageSwitch.ClickAgreesWithAttached | miniprogram/components/language-switch.ts:14-53 | after a click the button shows what a freshly attached button shows for the new language, and never the text it showed before |
| LanguageSwitch.DoubleClick | miniprogram/components/language-switch.ts:30-37 | two clicks restore the starting language exactly when it was supported |
| LanguageSwitch.DoubleClickRestoresTable | miniprogram/components/language-switch.ts:30-37 | after two clicks from a supported language the registry is the one that language selects |
| LocaleEn.RequiredKeysPresent | miniprogram/locales/en.js:3-12 | the table holds `navbar.home`, `navbar.booking`, `navbar.profile`, `app.name` and `index.welcome` |
| LocaleEn.NavbarHome | miniprogram/locales/en.js:7 | `navbar.home` reads `Home` in the whole table, no later namespace shadowing it |
| LocaleEn.NavbarBooking | miniprogram/locales/en.js:8 | `navbar.booking` reads `Booking` |
| LocaleEn.NavbarProfile | miniprogram/locales/en.js:9 | `navbar.profile` reads `Profile` |
| LocaleEn.CourseTeacher | miniprogram/locales/en.js:66-98 | `course.teacher` is written twice and the later literal, `Instructor Introduction`, is the one kept |
| LocaleEn.CourseRemaining | miniprogram/locales/en.js:106 | `course.remaining` is the template `{count} remaining` |
| LocaleEn.ButtonAllAbsent | miniprogram/locales/en.js:121-130 | `button.all`, which the home page asks for, is not in the table |
| LocaleEn.StatusTenseAbsent | miniprogram/locales/en.js:131-136 | `status.tense`, which the booking page asks for, is not in the table |
| EnglishScenarios.English | miniprogram/utils/i18n.js:21-27 | switching a fresh registry to `'en'` selects exactly the English table |
| EnglishScenarios.RemainingTemplate | miniprogram/utils/i18n.js:38-47 | any table whose `course.remaining` is `{count} remaining` gives `3 remaining` for a count of 3 |
| EnglishScenarios.RemainingInEnglish | miniprogram/locales/en.js:106 | `t('course.remaining', {count: 3})` in English is `3 remaining` |
| EnglishScenarios.AbsentKeysInEnglish | miniprogram/pages/index/index.ts:69 | in English `t('button.all')` and `t('status.tense')` come back as the raw keys |
| EnglishScenarios.HomeInEnglish | miniprogram/locales/en.js:7 | `t('navbar.home')` in English is `Home` |
| SettingsPage.CurrentCode | miniprogram/pages/settings/index.ts:26 | a truthy global language is taken as it is; anything falsy counts as `'zh-CN'` |
| SettingsPage.Toggle | miniprogram/pages/settings/index.ts:26-27 | the new code is always supported, and it is `'en'` exactly when the current code is `'zh-CN'` |
| SettingsPage.DisplayName | miniprogram/pages/settings/index.ts:34 | `'中文'` exactly for `'zh-CN'`, `'English'` for every other code |
| SettingsPage.NotifyPages | miniprogram/pages/settings/index.ts:44-49 | `onLanguageChange` runs once on every page that defines it, in stack order, and on no other page |
| SettingsPage.NotifyOrder | miniprogram/pages/settings/index.ts:44-49 | the reference list of handler pages is ascending and holds exactly the pages with a handler |
| SettingsPage.SwitchLanguageAsWritten | miniprogram/pages/settings/index.ts:25-50 | the switch fails exactly when the app lacks `switchLanguage`; otherwise it gives the toggled code and its name |
| SettingsPage.SwitchLanguageAlwaysThrows | miniprogram/pages/settings/index.ts:30 | with the methods `app.ts` defines, every language switch on this page throws before the display changes or any page is told |
| SettingsPage.SwitchLanguage | miniprogram/pages/settings/index.ts:25-50 | the intended switch: toggled code set and persisted through the registry, its name shown, every page with a handler told once in stack order |
| SettingsPage.SwitchTwice | miniprogram/pages/settings/index.ts:26-34 | two intended switches from a supported language restore it and its name |
| SettingsPage.IndexOf | miniprogram/pages/settings/index.ts:56 | `indexOf`: -1 exactly when absent, else the first position holding the store |
| SettingsPage.NextStore | miniprogram/pages/settings/index.ts:53-58 | the next store is always one of the three listed stores |
| SettingsPage.NextOfListed | miniprogram/pages/settings/index.ts:54-58 | store `i` rotates to store `(i + 1) mod 3` |
| SettingsPage.UnknownStore | miniprogram/pages/settings/index.ts:56-58 | an unlisted store (`indexOf` = -1) rotates to `'南山店'` |
| SettingsPage.ThreeRotations | miniprogram/pages/settings/index.ts:54-58 | three rotations from a listed store return to it |
| AppState.Initial | miniprogram/app.ts:25-33 | a fresh app is logged out, with empty token and user id, no user info, store `'南山店'` and role `'student'` |
| AppState.CheckLoginStatus | miniprogram/app.ts:51-61 | logged in from storage exactly when both stored token and user info are truthy, with the user id or `''`; otherwise nothing changes |
| AppState.LoginSuccess | miniprogram/app.ts:82-92 | a `null` or `undefined` response throws at `res.token` before any write; otherwise token and user info are written to storage and memory and the app is logged in, store and role kept; a missing `userInfo` then throws at `userId` after those writes, leaving the old user id; the flag says whether the callback ran to its end |
| AppState.Logout | miniprogram/app.ts:117-125 | both login keys leave storage and every other key stays; token, user info, login flag and user id are reset; store and role are kept |
| AppState.SwitchedStoreNotRestored | miniprogram/app.ts:128-131 | the new store is written under `'currentStore'`, yet a restarted app shows `'南山店'` because nothing reads that key back; switching back restores the app's data |
| AppState.LoginSurvivesRestart | miniprogram/app.ts:51-90 | after a login with a truthy token and user info, a restarted app restores the same login |
| AppState.EmptyTokenDoesNotSurvive | miniprogram/app.ts:51-90 | a login whose response has no truthy token leaves a restarted app logged out |
| AppState.LogoutSurvivesRestart | miniprogram/app.ts:51-125 | after a logout a restarted app finds nobody logged in |
| AppState.MissingUserInfoRejects | miniprogram/app.ts:51-90 | a response with a token but no user info stops at `userId`: the app is logged in in memory with the old user id, and a restarted app restores nobody |
| AppState.LoginLogout | miniprogram/app.ts:82-125 | logging in and then out leaves storage as it was apart from the two login keys |
| MockApi.Route | miniprogram/utils/api-complete.js:13-25 | a request is answered from the mock data exactly when its URL starts with `/api/` or `/auth/`, and the URL is passed on unchanged |
| MockApi.DispatchFirstMatch | miniprogram/utils/api-complete.js:107 | in a `switch (url)` the first group of labels naming the URL answers, whatever later groups say |
| MockApi.DispatchDefault | miniprogram/utils/api-complete.js:1505-1506 | a URL no case names gets the `default` answer (`{success: true, data: {}}`) |
| MockApi.TeacherT1IsBoa | miniprogram/utils/api-complete.js:206-263 | `/api/teachers/t1` returns the BOA record; its second label further down is unreachable, while `/api/teachers/1` reaches that later group |
| MockApi.PrefixedIdsAgree | miniprogram/utils/api-complete.js:364-368 | `t3` and `3` normalise to the same id |
| MockApi.Paginate | miniprogram/utils/api-complete.js:679-691 | `total` counts the filtered items, and page and limit are the defaulted values |
| MockApi.PageWindow | miniprogram/utils/api-complete.js:679-691 | the list is `items[(page-1)*limit .. page*limit)` clipped to the items, and `hasMore` holds exactly when `page*limit < total` |
| MockApi.DefaultPage | miniprogram/utils/api-complete.js:577-578 | with neither page nor limit the first ten items come back as page 1 |
| MockApi.PagesConcatenate | miniprogram/utils/api-complete.js:679-691 | pages 1 to n read in turn are the first n*limit items: nothing skipped, nothing repeated |
| MockApi.NoMoreMeansAllRead | miniprogram/utils/api-complete.js:691 | once a page says `hasMore` is false, the pages read so far are all the items |
| MockApi.AdminFilterIsOneFilter | miniprogram/utils/api-complete.js:656-677 | the three chained admin-teacher filters keep, in order, exactly the teachers that meet every active condition |
| MockApi.AdminFilterMembers | miniprogram/utils/api-complete.js:656-677 | a teacher is kept exactly when listed and in the store, with the status and matching the keyword (lower-cased name or raw phone), each condition skipped when absent or `'all'` |
| MockApi.BookingFilterMembers | miniprogram/utils/api-complete.js:1484-1489 | with an active status, the bookings kept are exactly those with that status; an absent or `'all'` status keeps the list as it is |
| MockApi.MissingAdminMethods | miniprogram/utils/api-complete.js:1653-1672 | the mock server's `adminApi` has no `sendNotification`, `getSmsCode`, `getStudentList`, `updateStudentClasses`, `deleteCourse` or `updateCourse`, so an admin page calling one never gets an answer; its `getCourseList` answers as its request does |
| Http.QueryPairs | miniprogram/utils/api.ts:122 | one `key=encoded value` pair per parameter, in key order |
| Http.EmptyParams | miniprogram/utils/api.ts:122 | an empty params object still appends a bare `?` |
| Http.QueryRoundTrip | miniprogram/utils/api.ts:122 | with keys free of `&` and `=` and an encoder that never emits them, splitting the query string gives back every key and its encoded value in order |
| Http.Authorization | miniprogram/utils/api.ts:17-22 | `Bearer` and the global token if truthy, else the stored token if truthy, else the empty string |
| Http.Headers | miniprogram/utils/api.ts:20-24 | the two default headers, overridden key by key by the caller's headers |
| Http.Wire | miniprogram/utils/api.ts:103-104 | the base URL is prefixed to the path, and a missing or zero timeout becomes 10000 |
| Http.Intercept | miniprogram/utils/api.ts:30-48 | a non-200 status rejects with `HTTP Error: <code>`; status 200 with a `null` or `undefined` body throws at `data.code`; a non-zero business code rejects with the message or `'请求失败'`; only status 200 with code 0 accepts, with `data.data` |
| Http.NullBodyNeverSettles | miniprogram/utils/api.ts:30-110 | on status 200 a `null` or `undefined` body throws inside the callback, so neither version settles; any other body settles in the corrected version |
| Http.SettleAsWritten | miniprogram/utils/api.ts:105-110 | as written a rejection propagates and an accepted payload never settles the promise |
| Http.Settle | miniprogram/utils/api.ts:105-110 | corrected: the promise resolves with the payload exactly on status 200 and code 0, and rejects exactly when the interceptor rejects |
| Http.SuccessNeverResolves | miniprogram/utils/api.ts:107 | on a successful response the request hangs as written but resolves as intended |
| Http.AsWrittenNeverResolves | miniprogram/utils/api.ts:105-110 | as written no response ever resolves, and the two versions agree exactly on the responses the interceptor does not accept |
| Http.GenericMessageCarriesCode | miniprogram/utils/api.ts:51-83 | only codes outside 401, 403, 404, 500, 502, 503, 504 get `网络错误 (<code>)`, and reading its digits back gives the code |
| Http.UnauthorizedEndsSession | miniprogram/utils/api.ts:51-86 | after a 401 the app is logged out and a restarted app finds nobody logged in; any other code leaves the app as it was; the message is the generic one exactly for codes without their own |
| TimeFormat.PadStart2 | miniprogram/utils/util.ts:10-14 | `padStart(2, '0')` gives at least two characters and keeps a text already that long |
| TimeFormat.ZeroIfSingle | miniprogram/utils/util-complete.js:22-26 | only a one-character text gets a leading zero |
| TimeFormat.PaddingsAgree | miniprogram/utils/util-complete.js:15-26 | on a number's decimal form the two paddings agree and both give the two-digit form |
| TimeFormat.FormatTimesAgree | miniprogram/utils/util-complete.js:11-35 | the two `formatTime` functions give the same text for every date and format |
| TimeFormat.FullFormat | miniprogram/utils/util.ts:7-23 | `YYYY-MM-DD HH:mm:ss` spells out the year and every other field padded to two digits |
| TimeFormat.DefaultFormat | miniprogram/utils/util-complete.js:11-35 | the default format gives the date and the padded hour and minute |
| TimeFormat.MonthDayFormat | miniprogram/utils/util-complete.js:28-34 | `MM-DD` gives the padded month and day |
| TimeFormat.PickerShowsHh | miniprogram/pages/admin/notification.ts:234 | as written the picker text keeps the letters `hh` where the hour should be |
| TimeFormat.PickerShowsHour | miniprogram/pages/admin/notification.ts:234 | corrected: with `HH` the picker shows the padded hour |
| TimeFormat.TierOf | miniprogram/utils/util.ts:43-55 | just now under a minute; otherwise the floor count of minutes, hours, days or weeks within that tier's bounds; the date itself from 30 days on |
| TimeFormat.EnglishUnlessChinese | miniprogram/utils/util.ts:41-44 | Chinese phrases exactly when the stored language is missing or `'zh-CN'`; every other code reads English |
| TimeFormat.FutureIsJustNow | miniprogram/utils/util.ts:43-44 | a date in the future reads as just now |
| TimeFormat.TierOfComplete | miniprogram/utils/util-complete.js:40-58 | only minutes, hours and days; from a day on, days are counted without an upper tier |
| TimeFormat.RelativeTimesAgreeBelowWeek | miniprogram/utils/util-complete.js:40-58 | below a week the two versions agree for a Chinese user |
| TimeFormat.RelativeTimesDifferFromWeek | miniprogram/utils/util.ts:49-55 | from a week on, one version still counts days while the other counts weeks or shows the date |
| TimeFormat.MaskPhone | miniprogram/utils/util.ts:249-255 | eleven digits keep the first three and last four with `****` between; anything else comes back unchanged |
| TimeFormat.MaskIdempotent | miniprogram/utils/util.ts:249-255 | masking twice is masking once |
| Cdn.GetCdnUrl | miniprogram/utils/cdn-config.ts:39-52 | any kind other than teacher, banner, course or store gives the empty string |
| Cdn.TablesComplete | miniprogram/utils/cdn-config.ts:3-37 | every fallback key is in its table and no entry is empty |
| Cdn.EntryCases | miniprogram/utils/cdn-config.ts:42-48 | a listed key yields its own entry and any other key the fallback's; the result is never empty |
| Cdn.KnownKindsAlwaysAnswer | miniprogram/utils/cdn-config.ts:39-49 | the four known kinds never give `undefined` or `''`, and each answers from its own table |
| Cdn.TeacherFallback | miniprogram/utils/cdn-config.ts:42 | a listed teacher id gets its own avatar, any other id teacher `'1'`'s |
| Cdn.BannerPosition | miniprogram/utils/cdn-config.ts:44 | a numeric position picks that banner when it exists, else the first banner |
| Cdn.BannerOfPosition | miniprogram/utils/cdn-config.ts:44 | whatever key parses to position `i` picks banner `i` when in range, else the first |
| Cdn.CourseAndStoreFallback | miniprogram/utils/cdn-config.ts:46-48 | unknown courses get the default image and unknown stores the Nanshan image |
| Capacity.TextAgreesWithClass | miniprogram/pages/course/list.ts:257-268 | the label has a slash exactly when its class is `text-small`, so the short warning form always goes with `text-warning` |
| Capacity.ShortFormCount | miniprogram/pages/index/index.ts:400-406 | with at most five places left the label is the prefix, that one digit and `名额`, and the digit reads back as the places left |
| Capacity.LongFormFields | miniprogram/pages/teacher/detail.ts:151-157 | with more than five places left the label splits at the slash into the places left and the capacity |
| Paging.Load | miniprogram/pages/course/list.ts:134-139 | a failed request changes nothing; the loading flag is not this step's business |
| Paging.Begin | miniprogram/pages/course/list.ts:99-102 | a load is refused exactly while one is in flight; otherwise it asks for the queried page and sets the flag |
| Paging.Finish | miniprogram/pages/course/list.ts:134-144 | the flag is cleared whether the request succeeded or failed |
| Paging.GuardSkipsOverlap | miniprogram/pages/course/list.ts:100 | a second load started while the first is in flight does nothing |
| Paging.GuardedLoadIsLoad | miniprogram/pages/course/list.ts:99-144 | a guarded load that completes is the plain merge with the flag cleared again |
| Paging.LoadMore | miniprogram/pages/course/list.ts:315-319 | `loadMore` loads exactly when there is more and nothing is in flight, and asks for the page counter |
| Paging.RunAppends | miniprogram/pages/course/list.ts:135-137 | appending loads lose and repeat nothing: the list grows by each answer in order and the counter by one per load |
| Paging.BrowseShowsPrefix | miniprogram/pages/course/list.ts:99-145 | against the mock server, browsing n pages shows exactly the first n*limit items in order, with the counter at n+1 and `hasMore` false exactly when all are shown |
| Paging.NoMoreShowsAll | miniprogram/pages/course/list.ts:137 | once `hasMore` turns false, the page shows the whole list |
| Paging.GetAppend | miniprogram/pages/course/list.ts:109-129 | a key added to the params object reads back its value, and the other keys read as before |
| CourseList.DateByFilter | miniprogram/pages/course/list.ts:148-166 | a date filter other than today, tomorrow and this week stands for the empty date |
| CourseList.QueryCarriesActiveFilters | miniprogram/pages/course/list.ts:105-129 | the query names page and limit first, and carries each of the four filters exactly when it is not `'all'`, the date filter as the date it stands for |
| CourseList.GetStep | miniprogram/pages/course/list.ts:115-129 | one conditional assignment reads back as set and leaves the other keys and the earlier pairs alone |
| CourseList.UnfilteredQuery | miniprogram/pages/course/list.ts:109-112 | with every filter `'all'` the query is just page and limit |
| CourseList.BeginLoad | miniprogram/pages/course/list.ts:99-129 | refused exactly while a load is in flight; otherwise the query for the queried page, with the flag set |
| CourseList.RefreshAsksFirstPage | miniprogram/pages/course/list.ts:169-175 | a refresh that is not refused asks for page 1 whatever page the list had reached |
| CourseList.CaptionOfFirst | miniprogram/pages/course/list.ts:276-289 | a menu caption is that of the first option with the value, and the fallback exactly when no option has it |
| CourseList.CategoryCaptions | miniprogram/pages/course/list.ts:271-292 | dance type, teacher and store buttons show their category name when the filter is off or names no option, and the option's caption otherwise; unknown kinds show `'全部'` |
| BookingPage.Refresh | miniprogram/pages/booking/index.ts:262-273 | full exactly when booked reaches capacity; bookable exactly when not full and bookable before; tense exactly when four fifths are booked and the incoming full flag was off; nothing else changes |
| BookingPage.TenseExcludesFull | miniprogram/pages/booking/index.ts:269-270 | when the incoming full flag is current, a tense course is never full, and the flag stays current |
| BookingPage.StaleFlagMarksFullCourseTense | miniprogram/pages/booking/index.ts:270 | a full course arriving with a stale full flag is marked full and tense at once |
| BookingPage.LoadCourses | miniprogram/pages/booking/index.ts:276-280 | filtering never adds courses |
| BookingPage.RefreshAll | miniprogram/pages/booking/index.ts:262-273 | every course is refreshed, in place |
| BookingPage.LoadedCourses | miniprogram/pages/booking/index.ts:262-280 | a course is listed exactly when it is the refresh of some course and matches the selected date and type, an empty criterion matching everything |
| BookingPage.NoCriteriaListsAll | miniprogram/pages/booking/index.ts:277-278 | with no date and no type selected every course is listed, refreshed, in order |
| BookingPage.FormatDateRoundTrip | miniprogram/pages/booking/index.ts:153-158 | splitting the key at its dashes gives the year, month and day texts, which read back as the numbers |
| BookingPage.FormatDateInjective | miniprogram/pages/booking/index.ts:153-158 | two different dates never share a key |
| BookingPage.InitDateOptions | miniprogram/pages/booking/index.ts:116-150 | five tabs, one per day from today, keyed by the formatted date; labels `今天`, `明天`, then the weekday; today is selected |
| BookingPage.DateTabsDistinct | miniprogram/pages/booking/index.ts:116-150 | five different days give five different tab keys |
| CourseDetail.CheckBookingStatus | miniprogram/pages/course/detail.ts:84-101 | expired exactly when the start has passed; otherwise full exactly when booked reaches capacity, else available; never booked |
| CourseDetail.LoadedPageGatesClassCard | miniprogram/pages/course/detail.ts:104-155 | on a freshly loaded page a class-card course can be booked only by a logged-in user whose record holds a positive count for its dance type; with no record or no count the refusal is for want of classes |
| CourseDetail.Gate | miniprogram/pages/course/detail.ts:114-155 | booking goes on to the confirmation exactly when logged in, the course is available, and a class-card course still has classes left |
| CourseDetail.BookCourse | miniprogram/pages/course/detail.ts:114-186 | a booking happens exactly when the gate passes, the user confirms and the request succeeds; then the status is booked, the count goes up by one and a class card loses one class |
| CourseDetail.LoadIsConsistent | miniprogram/pages/course/detail.ts:59-68 | the status worked out on load shows available only with a free place |
| CourseDetail.BookingStaysWithinCapacity | miniprogram/pages/course/detail.ts:146-176 | a booking keeps the count within capacity and keeps the page consistent, and a second booking is refused as already booked |
| CourseDetail.ClassCardNeverNegative | miniprogram/pages/course/detail.ts:152-182 | a class-card booking never takes the remaining classes below zero |
| CourseDetail.ButtonMatchesGate | miniprogram/pages/course/detail.ts:238-273 | the button is disabled exactly when the course is expired or full, and no two statuses share a text |
| CourseDetail.DifficultyStars | miniprogram/pages/course/detail.ts:279-281 | always five stars |
| CourseDetail.StarsCount | miniprogram/pages/course/detail.ts:279-281 | the lit stars come first and there are as many as the difficulty, clipped to 0..5 |
| HomePage.Preprocess | miniprogram/pages/index/index.ts:188-214 | a course keeps its capacity and other fields; its booked count is capped at capacity; the id is filled from `id` only when missing; a missing avatar or dance-type name gets the default |
| HomePage.PreprocessCourses | miniprogram/pages/index/index.ts:188-214 | one cleaned course per course, in order |
| HomePage.PreprocessIsIdempotent | miniprogram/pages/index/index.ts:188-214 | when each course has some id, every cleaned course is complete and within capacity, and cleaning twice is cleaning once |
| HomePage.PreprocessTeacher | miniprogram/pages/index/index.ts:137-144 | the teacher id is filled from `id` only when missing, and a missing avatar gets the default; everything else is kept |
| HomePage.FirstSixTeachers | miniprogram/pages/index/index.ts:128-150 | at most six teachers are shown: the first six, in order, each cleaned up |
| HomePage.PreprocessedLabel | miniprogram/pages/index/index.ts:400-406 | after the clean-up the remaining count is never negative, and the short label shows a single digit |
| TeacherList.FilteredMembers | miniprogram/pages/teacher/list.ts:172-183 | a teacher is listed exactly when each filter that is not `'all'` accepts them |
| TeacherList.LoadTeachers | miniprogram/pages/teacher/list.ts:185-197 | every load moves to the next page and clears the loading flag |
| TeacherList.LoadIsServerLoad | miniprogram/pages/teacher/list.ts:185-197 | the window cut on the client is the same as the mock server's page, merged the way every list page merges |
| TeacherList.LoadsShowPrefix | miniprogram/pages/teacher/list.ts:87-197 | after a refresh and n loads the page shows exactly the first n pages of filtered teachers, in order, and `hasMore` holds exactly when more remain |
| TeacherList.RatingStars | miniprogram/pages/teacher/list.ts:284-301 | a rating from 0 to 5 gives five stars; the first whole-part ones are full and the rest are outline |
| TeacherList.HalfStarLooksEmpty | miniprogram/pages/teacher/list.ts:284-301 | 4.5 and 4.0 draw the same stars, so a half star cannot be seen |
| DanceTypes.NamesOf | miniprogram/pages/teacher/list.ts:272-282 | one name per id, in order: the table's name when it has a non-empty one, else the id itself |
| DanceTypes.NamesAndFallback | miniprogram/subpackage/admin/pages/teachermanage.ts:295-305 | a known id shows the same name on both pages, an unknown id shows itself, and only the admin table names popping |
| DanceTypes.OneSlashBetweenTypes | miniprogram/pages/teacher/list.ts:272-282 | when no id contains a slash, the `' / '`-joined text holds one slash fewer than there are ids, so each type is its own segment |
| DanceTypes.DetailJoinRoundTrip | miniprogram/pages/teacher/detail.ts:166-168 | the `'、'`-joined text splits back into the list of types when no type contains the separator |
| TeacherDetail.LoadMerges | miniprogram/pages/teacher/detail.ts:73-91 | a reset load replaces the list and moves to page 2; a later load appends and keeps the old courses as a prefix; `hasMore` is the server's |
| TeacherDetail.LoadNeverMergesAsWritten | miniprogram/pages/teacher/detail.ts:73-91 | behind the request module as written, no answer ever reaches the course list; with the intended settling, an accepted answer merges as a load does |
| TeacherDetail.LoadMoreGate | miniprogram/pages/teacher/detail.ts:176-180 | another page is asked for exactly when there is more and nothing is loading, and it is the counter's page |
| TeacherDetail.LabelMatchesStyle | miniprogram/pages/teacher/detail.ts:151-163 | the label has the slash form exactly when the style is the small one |
| TeacherDetail.ModalAnswer | miniprogram/pages/teacher/detail.ts:113-118 | the confirmation's answer object is truthy whatever the user presses, and its `confirm` field holds the answer |
| TeacherDetail.CancelStillBooks | miniprogram/pages/teacher/detail.ts:113-121 | as written, a logged-in user who presses cancel still sends the booking |
| TeacherDetail.BookOnlyOnConfirm | miniprogram/pages/teacher/detail.ts:102-121 | the corrected gate books exactly for a logged-in user who confirms, and never books where the written one would not |
| TeacherDetail.AfterBookingReloads | miniprogram/pages/teacher/detail.ts:124-130 | after a booking the list is reloaded from page 1 and replaced by the answer |
| TeacherDetail.BookingNeverReloadsAsWritten | miniprogram/pages/teacher/detail.ts:121-130 | behind the request module as written, a booking never reaches the reset and reload; with the intended settling, an accepted booking goes back to page 1 and asks for it |
| TeacherDetail.DifficultyStars | miniprogram/pages/teacher/detail.ts:171-173 | the teacher page's difficulty stars are the same as the course page's |
| Profile.BookingsQueryFields | miniprogram/pages/profile/index.ts:145-155 | the bookings query names the selected status, page 1 on a reset or the counter's page otherwise, and the limit |
| Profile.LoadBookings | miniprogram/pages/profile/index.ts:145-165 | loading bookings never changes the selected status |
| Profile.SwitchShowsFirstPageOfStatus | miniprogram/pages/profile/index.ts:204-214 | after switching the status and loading the server's answer, the list is exactly the first page of bookings with that status, whatever was shown before |
| Profile.UpcomingMatchesNothing | miniprogram/pages/profile/index.ts:24 | the page opens on `'upcoming'`, which no booking of the mock server carries, so the first list is empty |
| Profile.LoadMoreKeepsStatus | miniprogram/pages/profile/index.ts:381-385 | another page is asked for exactly when there is more and nothing is loading, under the same status, for the counter's page |
| Profile.CancelReloadsSameStatus | miniprogram/pages/profile/index.ts:217-238 | a cancellation reloads from page 1 under the same status exactly when confirmed and the request succeeds, and does nothing otherwise |
| Profile.BookingStatusCaptions | miniprogram/pages/profile/index.ts:321-350 | each known booking status has its own caption, which names it back; any other status shows `未知`, and exactly those get the default style |
| Profile.CardStatusCaptions | miniprogram/pages/profile/index.ts:353-378 | the same for course cards, and only an active card is styled as success |
| Profile.MonthDayOfKey | miniprogram/pages/profile/index.ts:316 | on a `YYYY-MM-DD` date the year is dropped, leaving the padded month and day |
| Profile.BookingTimeShape | miniprogram/pages/profile/index.ts:301-318 | every booking time ends with the start-end span, and a day more than one away from today shows its month and day |
| Profile.LogoutClears | miniprogram/pages/profile/index.ts:271-290 | confirming with a successful request clears the user, the bookings and the cards; otherwise nothing changes; logging out twice is logging out once |
| Profile.SameAsButton | miniprogram/pages/profile/index.ts:409-422 | the profile's language toggle changes the registry and storage exactly as the language-switch button does, and is always accepted |
| Countdown.ContentFields | miniprogram/pages/qrcode/index.ts:60-62 | splitting a code at its bars gives back the user, time and random fields when neither the id nor the random part contains a bar |
| Countdown.DifferentTimesDifferentCodes | miniprogram/pages/qrcode/index.ts:60-62 | codes made at different times differ, whatever their random parts |
| Countdown.Generate | miniprogram/pages/qrcode/index.ts:54-68 | without a user nothing changes; with one only the code is replaced, by the one made from the user, the clock and the random part |
| Countdown.QrCycle | miniprogram/pages/qrcode/index.ts:71-86 | within one period the code stays and the seconds count down; the tick that ends the period brings a code from that tick's inputs and thirty seconds again |
| Countdown.RefreshIsEarlyRollover | miniprogram/pages/qrcode/index.ts:100-104 | a manual refresh gives the same code and count as the tick that ends a period |
| Countdown.DetachedFreezes | miniprogram/pages/qrcode/index.ts:35-37 | once the page detaches, no tick changes the code or the count |
| Countdown.SmsRun | miniprogram/pages/admin/login.ts:111-126 | after a start the count shows sixty minus the ticks; the sixtieth tick stops the timer, and the count then stays at one and never shows zero |
| Countdown.RestartResets | miniprogram/pages/admin/login.ts:111-114 | starting again while a countdown runs starts over from sixty with one timer |
| AdminLogin.ValidPhoneRange | miniprogram/pages/admin/login.ts:55-67 | an accepted phone parses as a number from 13000000000 up to, but not including, 20000000000 |
| AdminLogin.ValidPhoneExamples | miniprogram/pages/admin/login.ts:55-67 | a mainland mobile number is accepted; a second digit below three, a missing digit or an empty phone are rejected |
| AdminLogin.ValidCodeIsLength | miniprogram/pages/admin/login.ts:70-82 | a code is accepted exactly when it is six characters long, whatever the characters are |
| AdminLogin.LoginGateShortCircuits | miniprogram/pages/admin/login.ts:140-148 | the request goes out exactly for a valid phone and code; a bad phone sets only the phone's error and the code is not checked |
| AdminLogin.TypedLoginStarts | miniprogram/pages/admin/login.ts:37-52 | typing a valid phone and code clears both errors, and the login then starts |
| AdminLogin.SendSmsGate | miniprogram/pages/admin/login.ts:86-107 | a code is requested exactly for a valid phone; the code counts as sent, and the countdown starts, exactly after a successful request |
| AdminLogin.SmsNeverMarkedSent | miniprogram/subpackage/admin/pages/login.ts:86-107 | as written, sending a code never marks it sent and never starts the countdown, in either login page; only the phone error can change; a valid phone with a request that succeeds would do both |
| AdminLogin.DirectLoginEffects | miniprogram/subpackage/admin/pages/login.ts:140-160 | the sub-package login always makes the fixed admin, stores the fixed token under the admin keys, and leaves every other stored key and the store alone |
| AdminLogin.AdminLoginNotRestored | miniprogram/pages/admin/login.ts:155-163 | the admin keys are not the ones the app reads at start-up, so after a restart an admin login is forgotten unless a member's token was stored |
| Notification.AdminPagesAgree | miniprogram/pages/admin/notification.ts:72-90 | the admin check admits anyone the direct admin login let in, with the fixed token, and nobody whose storage lacks the admin token |
| Notification.TargetOptions | miniprogram/pages/admin/notification.ts:357-375 | a store target offers the two stores; a course target offers, for each course in order, its id captioned with its name, date and start time; any other kind offers nothing |
| Notification.TargetLabelAlwaysEmpty | miniprogram/pages/admin/notification.ts:220-229 | as written, picking a target records its id but the caption stays empty, even for a listed store |
| Notification.TargetLabelShown | miniprogram/pages/admin/notification.ts:220-229 | with the form's kind of target, each store shows its name and a kind without options shows nothing; the form changes as in the written version |
| Notification.CourseTargetLabel | miniprogram/pages/admin/notification.ts:220-229 | a course target shows `name (date time)` of the first course with that id |
| Notification.SendCheckAccepts | miniprogram/pages/admin/notification.ts:258-276 | a notification may go out exactly when it has a title, a content and, unless it is for everyone, a target; a missing title is reported first |
| Notification.TargetTypeChangeNeedsTarget | miniprogram/pages/admin/notification.ts:210-217 | after picking a kind of target other than everyone, sending is refused until a target is picked |
| Notification.SentCloses | miniprogram/pages/admin/notification.ts:258-290 | an open dialog stays open exactly when the request fails, the title or the content is empty, or a notification not for everyone has no target; a closed dialog stays closed; the form keeps what was typed |
| Notification.SendNeverCloses | miniprogram/pages/admin/notification.ts:279-290 | as written, sending leaves the dialog exactly as it was, so a complete form stays open; with the method in place it would close |
| Notification.TypeTextCases | miniprogram/pages/admin/notification.ts:314-317 | a known type shows its caption, and a type no option carries shows itself |
| Notification.StatusCaptions | miniprogram/pages/admin/notification.ts:320-349 | drafts and unknown statuses share the default style; only unknown statuses show `未知` |
| Notification.ShowCreateResets | miniprogram/pages/admin/notification.ts:170-183 | opening the dialog always gives the first type, everyone as the target and no caption, and sending it at once is refused for the missing title |
| TeacherEdit.ValidateIsComplete | miniprogram/subpackage/admin/pages/teacheredit.ts:169-209 | a form passes exactly when the name, avatar and experience are not blank, the phone matches the mobile pattern, a dance type and a store are chosen, and the experience is a number; a blank name is reported first and a blank phone next |
| TeacherEdit.ResetFormIsRefused | miniprogram/subpackage/admin/pages/teacheredit.ts:257-271 | a reset form is refused for its missing name |
| TeacherEdit.RatingIsIndexPlusOne | miniprogram/subpackage/admin/pages/teacheredit.ts:109-115 | picker entry i gives i + 1 stars |
| TeacherEdit.LoadedRatingOnPicker | miniprogram/subpackage/admin/pages/teacheredit.ts:82-115 | a loaded rating is never zero and loading it again keeps it; a rating of 0 to 5 stars, or none, lands on a picker entry that gives the same rating back |
| TeacherEdit.PickedDanceTypes | miniprogram/subpackage/admin/pages/teacheredit.ts:126-135 | the form holds one known dance-type id per pick, two picks give the same id exactly when they are the same entry, and a form with a pick is past the dance-type check |
| TeacherEdit.StatusSwitchRoundTrip | miniprogram/subpackage/admin/pages/teacheredit.ts:117-123 | the switch is on exactly when the status is `'active'`, and the status is always active or inactive |
| TeacherEdit.AvatarStorage | miniprogram/subpackage/admin/pages/teacheredit.ts:225-232 | a temporary file, and only one, is sent as an image object, which the mock server stores as a cloud URL; any other avatar is stored as it is |
| TeacherEdit.SubmitSendsCompleteForms | miniprogram/subpackage/admin/pages/teacheredit.ts:212-240 | a request goes out exactly for a complete form; it updates the teacher the page was opened for, or creates a new one |
| StudentManage.QueryCarriesKeyword | miniprogram/subpackage/admin/pages/studentmanage.ts:89-97 | the student query names the page and limit first, and carries the keyword exactly when it is not empty |
| StudentManage.SearchAsksFirstPage | miniprogram/subpackage/admin/pages/studentmanage.ts:80-83 | a search confirmed while nothing loads asks for page 1 with the current keyword; during a load it sends nothing, though the counter is already back at 1 |
| StudentManage.StudentsNeverLoad | miniprogram/subpackage/admin/pages/studentmanage.ts:79-111 | as written, a load that starts ends with the list exactly as it was and the flag cleared, and a confirmed search shows the old students; with the method in place a reset load shows the answer's students |
| StudentManage.LoadStudentsMerges | miniprogram/subpackage/admin/pages/studentmanage.ts:79-111 | once the list answers, a load sends the page and keyword query, a reset shows just the answer's students and a later load appends them; the counter moves past the page asked for, `hasMore` is the server's and the flag is cleared |
| Text.HexReading | miniprogram/subpackage/admin/pages/studentmanage.ts:184 | `parseInt` without a radix reads `0x1A` as 26 and a bare `0x` as `NaN` |
| StudentManage.CountRoundTrip | miniprogram/subpackage/admin/pages/studentmanage.ts:184 | a typed number reads back as itself, and so does a negative one |
| StudentManage.ConfirmSendsCompleteAdjustments | miniprogram/subpackage/admin/pages/studentmanage.ts:199-225 | an adjustment is sent exactly for a student with a dance type, a non-zero count and a reason, with the dialog's values unchanged |
| StudentManage.UnreadableCountRefused | miniprogram/subpackage/admin/pages/studentmanage.ts:183-213 | a count that does not parse is refused by the count check |
| StudentManage.FreshDialogRefused | miniprogram/subpackage/admin/pages/studentmanage.ts:199-208 | a dialog opened and confirmed at once is refused for its missing dance type |
| StudentManage.NamesAgreeWithManagement | miniprogram/subpackage/admin/pages/studentmanage.ts:250-253 | the student page names each dance type as the teacher-management table does |
| StudentManage.StudentClassesRows | miniprogram/subpackage/admin/pages/studentmanage.ts:256-264 | no counts give no rows; otherwise one row per entry, in order, with its type, count and name |
| StudentManage.FilledDialogSendsOnce | miniprogram/subpackage/admin/pages/studentmanage.ts:148-225 | a dialog filled with a type, a non-zero count and a reason sends those values for its student; a success hides it, so confirming again sends nothing, and a failure leaves it as it was |
| StudentManage.ConfirmNeverCloses | miniprogram/subpackage/admin/pages/studentmanage.ts:199-234 | as written, confirming leaves the dialog as it was, so the same adjustment can be sent again; with the method in place a sent adjustment closes it |
| StudentManage.HiddenDialogSendsNothing | miniprogram/subpackage/admin/pages/studentmanage.ts:162-202 | once hidden, the dialog has no student and confirming sends nothing, whatever is typed afterwards |
| Modal.ShowModal | miniprogram/utils/util-complete.js:152-171 | the dialog always resolves, never rejects, and its answer is truthy exactly when the user confirms |
| AdminSettings.KeysDistinct | miniprogram/subpackage/admin/pages/settings.ts:247-263 | no two of the fourteen settings share a storage key |
| AdminSettings.Read | miniprogram/subpackage/admin/pages/settings.ts:111-130 | a flag always reads as a boolean; a number or store name reads as the stored value when that value is truthy, and as its default when it is falsy |
| AdminSettings.ReadRules | miniprogram/subpackage/admin/pages/settings.ts:111-130 | a flag is off only when `false` is stored, or on only when `true` is; a falsy stored number, zero included, gives the default |
| AdminSettings.NothingStoredGivesDefaults | miniprogram/subpackage/admin/pages/settings.ts:104-132 | with none of the keys stored, loading gives exactly the page's initial data |
| AdminSettings.WriteHolds | miniprogram/subpackage/admin/pages/settings.ts:247-263 | after the writes each written key holds its setting, and every other key is untouched |
| AdminSettings.SaveLoadRoundTrip | miniprogram/subpackage/admin/pages/settings.ts:104-263 | saving then loading gives back every setting, as long as flags are booleans and numbers and store names are truthy |
| AdminSettings.FalsySavedLoadsDefault | miniprogram/subpackage/admin/pages/settings.ts:117-128 | a number or store name saved falsy, such as zero or `NaN`, loads back as its default |
| AdminSettings.ResetGivesDefaults | miniprogram/subpackage/admin/pages/settings.ts:285-298 | after the reset's removals, loading shows the initial data, and every other key is kept |
| AdminSettings.DefaultsRoundTrip | miniprogram/subpackage/admin/pages/settings.ts:104-263 | the initial data can be saved, and loading it afterwards gives it back |
| AdminSettings.ToggleOne | miniprogram/subpackage/admin/pages/settings.ts:162-190 | a toggle negates one setting and leaves the rest; toggling a flag twice changes nothing; a storable page stays storable |
| AdminSettings.CancelStillEntersMaintenance | miniprogram/subpackage/admin/pages/settings.ts:192-212 | as written, cancelling the confirmation still switches maintenance mode on |
| AdminSettings.MaintenanceNeedsYes | miniprogram/subpackage/admin/pages/settings.ts:192-212 | in the corrected version maintenance mode goes on exactly with a yes; turning it off, or any other system flag, asks nothing; a yes does what the written version does |
| AdminSettings.ChangeNumberRange | miniprogram/subpackage/admin/pages/settings.ts:215-227 | a number in the range is set and one outside it is refused; input that is not a number is set as `NaN`; nothing else changes |
| AdminSettings.NaNSavedLoadsDefault | miniprogram/subpackage/admin/pages/settings.ts:215-227 | input that is not a number passes the range check and, once saved, loads back as the default |
| AdminSettings.PickedStoreIndex | miniprogram/subpackage/admin/pages/settings.ts:230-237 | picker entry k is the k-th store, and an index past the list gives `undefined` |
| AdminSettings.DefaultStoreRoundTrip | miniprogram/subpackage/admin/pages/settings.ts:230-237 | a picked store is set, and an index past the list loads back as the first store once saved |
| AdminSettings.CancelStillResets | miniprogram/subpackage/admin/pages/settings.ts:278-312 | as written, cancelling the reset still removes every setting, and the page then shows the initial data |
| AdminSettings.ResetOnlyOnYes | miniprogram/subpackage/admin/pages/settings.ts:278-312 | in the corrected version a cancel keeps the storage, and a yes brings back the initial data |
| AdminFilters.QueryCarriesActiveFilters | miniprogram/subpackage/admin/pages/teachermanage.ts:104-120 | the list query names the page and limit first, and carries the store and the status exactly when they are not `'all'`, and the extra parameter exactly when it is not empty, each with its value |
| AdminFilters.UnfilteredQuery | miniprogram/subpackage/admin/pages/coursemanage.ts:118-134 | with no filter on and nothing extra, the query is just the page and the limit |
| AdminFilters.DisplayShowsPicked | miniprogram/subpackage/admin/pages/coursemanage.ts:326-366 | after picking entry i of a filter menu, the button shows that entry's caption |
| AdminFilters.DisplayFallback | miniprogram/subpackage/admin/pages/coursemanage.ts:326-345 | a value no menu entry carries shows the "all" caption |
| AdminFilters.StoreMenuShape | miniprogram/subpackage/admin/pages/coursemanage.ts:355 | the store menu is `'全部门店'` followed by one entry per store, in order |
| AdminFilters.StoreDisplayIsMenuCaption | miniprogram/subpackage/admin/pages/coursemanage.ts:330-333 | the store button's search over the stores finds the same caption as the lookup in the menu |
| TeacherManage.RefreshAsksFirstPage | miniprogram/subpackage/admin/pages/teachermanage.ts:94-144 | a refresh while nothing loads asks for page 1 with the current filters and sets the loading flag; one during a load sends nothing |
| TeacherManage.SearchClearDropsKeyword | miniprogram/subpackage/admin/pages/teachermanage.ts:190-196 | after the search is cleared the query carries no keyword, and the filters stay as they were |
| TeacherManage.ServerSeesPageFilters | miniprogram/subpackage/admin/pages/teachermanage.ts:104-123 | the mock server filters by exactly the page's filters: a store or status of `'all'` is neither sent nor applied |
| TeacherManage.ListedTeachers | miniprogram/subpackage/admin/pages/teachermanage.ts:104-123 | a teacher is listed exactly when they meet every filter that is on |
| TeacherManage.StatusSwitch | miniprogram/subpackage/admin/pages/teachermanage.ts:233-252 | the switch is sent only on a yes; it always lands on active or inactive, undoes itself, and its verb is the new status's caption |
| TeacherManage.StatusCaptions | miniprogram/subpackage/admin/pages/teachermanage.ts:271-292 | exactly the statuses other than active and inactive show `未知`, and exactly those get the default style; the menu captions them as the list does |
| TeacherManage.DisplayShowsPickedOption | miniprogram/subpackage/admin/pages/teachermanage.ts:308-345 | after picking a menu entry the filter button shows its caption; other kinds show `'全部'` and offer nothing |
| TeacherManage.FormatShowsEveryType | miniprogram/subpackage/admin/pages/teachermanage.ts:295-305 | each dance type is its own `' / '` segment, and popping is named here |
| CourseManage.RefreshReplacesList | miniprogram/subpackage/admin/pages/coursemanage.ts:108-170 | a refresh while nothing loads asks for page 1 with the filters that are on and the date if one is chosen; its answer replaces the list and the counter moves to page 2 |
| CourseManage.LoadMoreAppends | miniprogram/subpackage/admin/pages/coursemanage.ts:369-374 | loading more asks for the counter's page and appends its answer |
| CourseManage.StatusCaptions | miniprogram/subpackage/admin/pages/coursemanage.ts:298-323 | exactly the unknown statuses show `未知` and get the default style; the menu captions the three statuses as the list does |
| CourseManage.DisplayShowsPickedOption | miniprogram/subpackage/admin/pages/coursemanage.ts:326-346 | after picking a menu entry the button shows its caption; the date button shows the date when one is chosen, and `'选择日期'` otherwise |
| CourseManage.StoreOptionsShape | miniprogram/subpackage/admin/pages/coursemanage.ts:355 | the store options are `'全部门店'` followed by one option per store, in order |
| Statistics.ChartsFollowTheirRows | miniprogram/subpackage/admin/pages/statistics.ts:237-261 | each chart has one label and one value per source row, in order; the trend is labelled `MM-DD` and counts bookings, the dance-type chart counts bookings, and the teacher chart counts classes |
| Statistics.PickerAligned | miniprogram/subpackage/admin/pages/statistics.ts:264-274 | picker entry 0 selects `'all'` and entry i the (i-1)th store's id; the caption then shown is the i-th store option, provided that store is the first with its id |
| Statistics.StoreFound | miniprogram/subpackage/admin/pages/statistics.ts:317-326 | the caption of a store's id is that store's name when it is the first with the id |
| Statistics.PeriodPickerAligned | miniprogram/subpackage/admin/pages/statistics.ts:277-287 | period entries 0, 1 and 2 select day, week and month, whose captions are the matching labels; an index past the end shows `'本月'` |
| Statistics.PeriodCaptions | miniprogram/subpackage/admin/pages/statistics.ts:329-351 | every period shows one of the three labels, and `'本月'` exactly when the period is neither day nor week |

## Left out

- WeChat platform calls (`wx.*`): storage is a map from keys to values. Toasts, loading indicators, navigation, clipboard, phone calls and page titles are dropped, because they only display or leave the page.
- Promises and `async`: each load is one synchronous step, a request's outcome is a parameter, and a callback runs where the awaited value arrives. Nothing here depends on interleaving except the `loading` guard, and that guard is modelled.
  - The corrected members take the outcome as a parameter. The as-written members feed it through what the source actually reaches.
  - A page on the mock server that calls an `adminApi` method the server lacks gets a `TypeError` (MockApi.MissingAdminMethods). The as-written members are Notification.SentAsWritten, StudentManage.LoadStudentsAsWritten, StudentManage.ConfirmDialogAsWritten and AdminLogin.SendSmsMock.
  - A page that reaches the request module `miniprogram/utils/api.ts` never sees a success resolve (Http.SettleAsWritten). The as-written members are TeacherDetail.LoadThrough, TeacherDetail.BookedThrough and AdminLogin.SendSmsThrough.
- Timers (`setInterval`, `setTimeout`): a countdown is a sequence of ticks. Wall-clock time is not modelled.
- `Date`: the current time, the calendar fields of a date and the difference between two dates are inputs. Time zones and the parsing of date strings are not modelled.
- Floating point: the "almost full" ratio 0.8 is stated as `5 * booked >= 4 * capacity`, and ratings are kept in tenths. The percentages on the statistics page are not modelled.
- `Math.random` and `Date.now`: generated ids and the mock avatar URLs built from them (`miniprogram/utils/api-complete.js`) are parameters.
- `encodeURIComponent` in the query-string builder is a parameter function. Percent-encoding itself is not modelled.
- I18n.Interpolate: a parameter name is matched literally, so `I18n.T` does not model regular-expression behaviour. In the source, metacharacters in a name are special, and `$` patterns in a value are expanded. A numeric name such as `0` makes the pattern `{0}`; building it with `new RegExp` throws "Nothing to repeat" (`miniprogram/utils/i18n.js:43`). The model instead substitutes it like any other name. The parameter names are also taken in the order given, whereas `Object.keys` puts integer-like names first.
- I18n.Create and I18n.SetLanguage: a key inherited from `Object.prototype` is treated as absent. Examples are `constructor` and `toString`. In the source such a code is truthy in `SUPPORTED_LANGUAGES[...]` and selects a function as the table (`miniprogram/utils/i18n.js:16-17,22`). The same holds for the message lookup in `t`, the CDN image lookup (`miniprogram/utils/cdn-config.ts:42-48`) and the caption lookups in `miniprogram/pages/teacher/list.ts:280`, `miniprogram/subpackage/admin/pages/teachermanage.ts:304` and `miniprogram/pages/course/detail.ts:110`.
- Text.LowerChar: `toLowerCase` lower-cases only `A` to `Z`. Full Unicode case mapping is not modelled, so a letter such as `Ä` is left as it is.
- MockApi.AdminFilterMembers: the keyword match lower-cases the name only in `A` to `Z`, through Text.LowerChar. A keyword with other upper-case letters may match in the source where it does not in the model.
- Text.ParseInt: large values are exact integers. `parseInt` returns a double, which rounds integers beyond 2^53.
- The Chinese table (`zh-CN.js`) is not part of this model. It is an abstract `Catalog` parameter, of which only the lookup is used. The English table is modelled in full.
- Duplicate copies of the core are not part of this model: `util.js`, `util-basic.js`, `cdn-config.js`, `api-basic.js` and the card component. The validation scripts are also left out.
- Dangling references in the source are modelled as the failure they cause or left out:
  - `miniprogram/pages/teacher/detail.ts`, `miniprogram/pages/admin/login.ts` and `miniprogram/pages/qrcode/index.ts` import `../../../utils/...`, a path one level above the package. The model reads it as `miniprogram/utils`, so these pages use `api.ts`, `util.ts` and `i18n.js`; on the real path the imports fail.
  - `loadUserData` is called in `miniprogram/pages/profile/index.ts` but never defined;
  - `setTabBarLanguage` is used in `miniprogram/pages/admin/login.ts` without being imported;
  - `i18n` is read but never declared in the data object passed to `Component` in `miniprogram/pages/teacher/detail.ts:25` and `miniprogram/pages/logs/logs.ts:10`. Loading either module throws a `ReferenceError` before the component registers, so neither page ever attaches and none of its methods runs. The TeacherDetail members, and the two Findings rows on that page, describe the methods as they would run once `i18n` is declared; the logs page is not modelled;
  - `globalData.language` is read in `miniprogram/pages/settings/index.ts` but never set.
- TeacherEdit.DecimalNumber: accepts plain decimal text only. The exponent, hexadecimal and `Infinity` forms that JavaScript's `Number` also accepts are not modelled. `onInputChange` stores whatever is typed, so the experience field can hold them; there `Number` accepts what the model refuses.
- AdminLogin.ValidCode: the length test counts characters, not UTF-16 code units. The two agree on the digits the code is made of.
- Admin settings: `checkVersion`, `checkForUpdate`, `exportData`, `clearCache` and `logout` are left out, because they only show dialogs and navigate. `clearCache` and `logout` share the confirmation flaw listed under Findings.
- AdminSettings number settings: the category read from the element's dataset is assumed to be the field's own category. The minimum and maximum are taken as integers.
- `checkAdminLogin` is repeated in each admin page and is modelled once, as Notification.CheckAdminLogin.
- These operations are left out:
  - `formatCourseTime`;
  - the deletes and cancellations on the admin teacher and course lists (`deleteTeacher`, `deleteCourse`, `cancelCourse`), and `deleteNotification`;
  - `formatDateRange` and `exportReport` on the statistics page;
  - `onShareAppMessage`.
  
  What they do:
  - `formatCourseTime` and `formatDateRange` only format dates.
  - `exportReport` only shows two toasts around a timer.
  - `onShareAppMessage` only returns the share card.
  - `deleteTeacher` sends one request behind a confirmation, then refreshes the list.
  - `deleteCourse` and `cancelCourse` call `adminApi.deleteCourse` and `adminApi.updateCourse`. The mock server lacks both (MockApi.MissingAdminMethods), so after the confirmation the call throws into the `catch`, which only logs.
  - `deleteNotification` sends no request, because its call is commented out. After the confirmation it shows success and reloads the built-in sample list.
- The admin course route of the mock server ignores the filters (`miniprogram/utils/api-complete.js`). Its answer is modelled as a parameter.
- `loadFilterOptions` asks for `storeApi.getStoreList()`; on the course page it also asks for `teacherApi.getTeacherList()`. It stores the answers as the filter choices. Its answer is the `stores` parameter of AdminFilters.StoreMenu and Statistics.StoreOptions. `loadTodoCount` sets the constant 3, and `loadNotifications` uses built-in sample data. Neither is modelled.
- CourseList.CategoryCaptions: the store button's caption assumes each store option carries its store's `storeId`. On the mock server's stores, which have only `id`, every option's value is `undefined` (`miniprogram/pages/course/list.ts:308`). The lookup at `miniprogram/pages/course/list.ts:289` then cannot tell the stores apart, so the button does not reliably show the picked store's name. The model does not show this.
- AdminFilters.Store: a store's id is taken as a string under `storeId`. The mock server's `/api/stores` answers with `id: 1` and `id: 2` and no `storeId` (`miniprogram/utils/api-complete.js:120-142`). The admin pages read `store.storeId`, so on the mock server every store in a filter menu selects `undefined`. The model does not show this. The public course list loads its stores the same way (`miniprogram/pages/course/list.ts:67-69`); see the CourseList.CategoryCaptions line.
- TeacherDetail.LoadMerges and TeacherDetail.AfterBookingReloads: these state the merge and the reload for an answer that arrives. As written no answer arrives; see TeacherDetail.LoadNeverMergesAsWritten and TeacherDetail.BookingNeverReloadsAsWritten.
- AdminLogin.SendSmsGate: this states the countdown and the sent flag after a request that succeeds. As written neither login page gets one; see AdminLogin.SmsNeverMarkedSent.
- Notification.SentCloses: this states the closing after a request that succeeds. As written the request throws; see Notification.SendNeverCloses.
- StudentManage.SearchAsksFirstPage, StudentManage.ConfirmSendsCompleteAdjustments and StudentManage.FilledDialogSendsOnce: these state the query sent and the request built. As written the call throws: the load ends in the failure toast with the list unchanged, and the dialog stays open. See StudentManage.StudentsNeverLoad and StudentManage.ConfirmNeverCloses. The failure toast itself is not modelled, like every toast.
- The notification form's plain setters (`onFormInput`, `onTypeChange`, `onDateTimeConfirm`) each store one field and are not modelled separately. The kind-of-target and target setters are modelled.

## Findings

| source | as written | input that shows it | evidently intended | confidence | as-written member | corrected member |
|---|---|---|---|---|---|---|
| miniprogram/subpackage/admin/pages/settings.ts:192-212 | enabling maintenance mode runs after `showModal`'s promise resolves, whatever the answer; `showModal` (`miniprogram/utils/util-complete.js`) resolves on cancel too | answering Cancel in the maintenance-mode confirmation | maintenance mode goes on only when the answer is yes | not executed | AdminSettings.CancelStillEntersMaintenance | AdminSettings.MaintenanceNeedsYes |
| miniprogram/subpackage/admin/pages/settings.ts:278-312 | the reset runs after `showModal`'s promise resolves and ignores the answer | answering Cancel in the reset confirmation | the settings are removed only when the answer is yes | not executed | AdminSettings.CancelStillResets | AdminSettings.ResetOnlyOnYes |
| miniprogram/utils/api.ts:105-110 | on success the wrapper calls `.then` on the plain payload, which throws inside the callback, so the promise never resolves | a response with status 200 and code 0 | the promise resolves with the payload | not executed | Http.SuccessNeverResolves | Http.Settle |
| miniprogram/pages/admin/notification.ts:220-229 | the target caption is looked up from `this.data.targetType`, which the page's data does not hold (the kind of target lives in the form) | kind of target "store", then picking "store1" | the caption shows the store's name, 南山店 | not executed | Notification.TargetLabelAlwaysEmpty | Notification.TargetLabelShown |
| miniprogram/pages/admin/notification.ts:234 | the picker's format string uses `hh`, a token the formatter does not know | any date and time picked for a scheduled notification | the text shows the two-digit hour (`HH`) | not executed | TimeFormat.PickerShowsHh | TimeFormat.PickerShowsHour |
| miniprogram/pages/settings/index.ts:30 | the page calls `app.switchLanguage`, which the app (`miniprogram/app.ts`) does not define | tapping the language switch on the settings page | the language is set through the registry and every open page is refreshed | not executed | SettingsPage.SwitchLanguageAlwaysThrows | SettingsPage.SwitchLanguage |
| miniprogram/pages/teacher/detail.ts:113-118 | the booking is gated on `await wx.showModal(...)`, whose result object is always truthy; reachable only once `i18n` is declared, because as written the page throws a `ReferenceError` at line 25 while loading and never attaches | a logged-in user pressing Cancel | book only when the user confirms | not executed | TeacherDetail.CancelStillBooks | TeacherDetail.BookOnlyOnConfirm |
| miniprogram/pages/admin/notification.ts:279 | the page calls `adminApi.sendNotification`, which the mock server's `adminApi` (`miniprogram/utils/api-complete.js`) does not define; the `TypeError` lands in the `catch`, which only logs | a complete notification form, then send | the notification is sent and the dialog closes | not executed | Notification.SendNeverCloses | Notification.SentCloses |
| miniprogram/subpackage/admin/pages/studentmanage.ts:100 | the page calls `adminApi.getStudentList`, which the mock server's `adminApi` does not define, so every load ends in the failure toast | opening the student page | the students of the requested page are listed | not executed | StudentManage.StudentsNeverLoad | StudentManage.LoadStudentsMerges |
| miniprogram/subpackage/admin/pages/studentmanage.ts:222 | the page calls `adminApi.updateStudentClasses`, which the mock server's `adminApi` does not define, so the dialog never closes | a dialog with type jazz, count 2 and a reason, then confirm | the adjustment is sent and the dialog closes | not executed | StudentManage.ConfirmNeverCloses | StudentManage.FilledDialogSendsOnce |
| miniprogram/subpackage/admin/pages/login.ts:96 | the page calls `adminApi.getSmsCode`, which the mock server's `adminApi` does not define, so no code is ever marked sent and no countdown starts | phone 13800138000, then send code | the code is sent and the 60-second countdown starts | not executed | AdminLogin.SmsNeverMarkedSent | AdminLogin.SendSmsGate |
| miniprogram/pages/teacher/detail.ts:3 | the page imports the request module by a path above the package; read as `miniprogram/utils/api.ts`, a success never resolves, so the teacher's courses never load and a booking never reloads; reachable only once `i18n` is declared, because as written the page throws a `ReferenceError` at line 25 while loading and never attaches | a response with status 200 and code 0 to `getTeacherCourses` | the courses of the answer are listed | not executed | TeacherDetail.LoadNeverMergesAsWritten | TeacherDetail.LoadMerges |
