# KEVII gym booking front-end: a Dafny model of its core logic

This project models the sequential logic of the KEVII gym booking web front-end. It covers four
parts of the application:

- **The booking page** (`src/pages/Book.jsx`). This covers the fixed half-hour lattice of bookable
  times from 06:00 to 23:00 and the capacity gate `count < MAX_DAILY_BOOKING` (5). It also covers
  the colour banding of `getColor` and how the grid's columns and rows come from the fetched
  `date -> time -> count` object. Durations are resolved from the catalogue 0.5 h … 3 h against
  the time left until 23:00, and `convertToISO` builds the submission instant. The page's state
  (`data`, `selectedTime`, `selectedTimeSlot`, `loading`) is a class. Its methods are the mount
  fetch, a click on a cell, the duration toggle and the `bookSlot` transaction.
- **The pilot login page** (`src/pages/LoginPilot.jsx`). This covers the NUS-ID pattern check,
  the e-mail normaliser and `handleLogin`'s bounded loop of three attempts. The loop runs over
  attempt outcomes supplied by the caller.
- **The profile page** (`src/pages/Profile.jsx`). This covers `getInitials` and the logout
  transition.
- **Routing** (`src/Router.jsx`, `src/App.jsx`). The guards `PrivateRoute` and `AuthRoute` and
  the four-entry route table are resolved together. A path either renders a page, matches
  nothing, or redirects.

How values are represented:

- A time of day is "HH:mm" text, read as minutes since midnight.
- A duration is a count of half hours: 1 is 0.5 h and 6 is 3 h. The source's hour arithmetic
  therefore becomes exact integer arithmetic.
- A JavaScript object is a sequence of (key, value) pairs in the object's own key order. That is
  insertion order for keys that are not array indices, such as the date and time keys the server sends.
- A missing cell is `None`.
- `localStorage` is a `map<string, string>` inside a `Browser` object. The route guards read it
  under the key `"kevii-gym-token"`. Login writes that key and logout removes it.

Modules: `Wrappers`, `Session`, `Slots`, `Durations`, `Grid`, `Booking` (from `Book.jsx`), `NusId`,
`LoginPage` (from `LoginPilot.jsx`), `Profile`, and `Routing` (from `Router.jsx` and `App.jsx`).

## Behaviour of the code that the model keeps

- **Failure toast timing.** The "Login Failed" toast appears when the attempt with index 1
  throws, not after the last attempt. A throw on attempt 0 or 2 waits 1.5 s instead. So three
  thrown failures give one toast, after the second POST, then a third POST and a final wait
  (`LoginPage.ThreeThrows`, `LoginPage.FailureToastRule`, `LoginPage.WaitRule`). The toast does
  not wait for the last attempt to fail.
- **Busy flag.** A response that does not throw clears `isLoggingIn` whatever its status. When
  the handler finishes, the flag is always clear (`LoginPage.LoginEndsIdle`).
- **Stale duration.** `selectedTimeSlot` starts at 0.5 h. Opening another cell does not reset it,
  and it is never checked against the durations offered for the cell. So a 3 h choice made on an
  early cell is submitted unchanged for a 22:30 cell (`Booking.StaleDurationScenario`), although
  22:30 offers only 0.5 h.
- **Outcomes of the booking POST.** Only status 201 reloads the page. A non-throwing reply with
  any other status shows nothing. A thrown error with no response makes the error handler itself
  fail, because it reads `error.response.data`.
- **Empty first date key.** A first date key equal to `""` is falsy, so the grid gets no rows.
- **Domain-only input.** `Normalise("@u.nus.edu")` is `"Eu.nus.edu"`. This is the only input whose
  normal form does not end with the domain. The pattern check never lets it through.
- **Route matching.** `<Routes>` compares a location with the declared paths without regard to
  ASCII case and ignores trailing slashes, so "/Login", "/login/" and "/DASHBOARD//" reach the
  declared routes (`Routing.CanonicalMatchesPattern`, `Routing.LoginInCapitals`).
- **Loose dots.** The dots in the pattern are unescaped, so `"e1234567@uXnusYedu"` is accepted. It
  then gets the domain appended a second time.

## Model

| member | source | states |
|---|---|---|
| Slots.ParseFormatClock | src/pages/Book.jsx:217-218 | reading a formatted "HH:mm" time gives back its minute count |
| Slots.FormatParseClock | src/pages/Book.jsx:217-218 | formatting a parsed time gives back the text it was read from |
| Slots.SlotAt | src/pages/Book.jsx:42-91 | the k-th lattice slot generated from its index reads as 06:00 plus 30·k minutes |
| Slots.ParseClock | src/pages/Book.jsx:217 | how `parseISO` reads the "HH:mm" part; Slots.ParseFormatClock and Slots.FormatParseClock prove it the inverse of the two-digit formatting over the minutes of a day |
| Slots.TimesIsLattice | src/pages/Book.jsx:39-91 | the constant `Slots.Times` (the `times` table) has 35 entries, entry k is the k-th half-hour slot, the first is BOOKING_START_TIME and the last BOOKING_END_TIME |
| Slots.TimesStepByHalfHours | src/pages/Book.jsx:42-91 | every entry is a time between 06:00 and 23:00 and each is exactly 30 minutes after the previous one |
| Durations.Fitting | src/pages/Book.jsx:222 | the filter keeps exactly the durations that fit in the spare minutes, never more entries than the catalogue |
| Durations.CatalogueFitting | src/pages/Book.jsx:222 | filtering the ascending catalogue yields a prefix of it, of length FitCount |
| Durations.AvailableDurationsMeaning | src/pages/Book.jsx:216-223 | a duration is offered iff it is in the catalogue and start plus duration is no later than 23:00; the result is a catalogue prefix in catalogue order |
| Durations.AvailableDurationsBounded | src/pages/Book.jsx:222 | at most six durations, all from the catalogue, also for an unreadable time |
| Durations.AvailableDurationsMonotone | src/pages/Book.jsx:216-223 | a later start offers a prefix of what an earlier start offers |
| Durations.LateStartExample | src/pages/Book.jsx:216-223 | 22:30 offers only 0.5 h |
| Durations.ClosingStartExample | src/pages/Book.jsx:216-223 | 23:00 offers nothing |
| Durations.EarlyStartFullCatalogue | src/pages/Book.jsx:216-223 | any start up to 20:00 offers the whole catalogue |
| Durations.AvailableDurations | src/pages/Book.jsx:216-223 | `getAvailableTimeSlots`; Durations.AvailableDurationsMeaning proves it offers exactly the catalogue durations that end by 23:00, as a catalogue prefix |
| Grid.Keys | src/pages/Book.jsx:130 | `Object.keys` lists one key per entry, in the object's key order (insertion order for the non-index date and time keys) |
| Grid.Lookup | src/pages/Book.jsx:281 | a key lookup is undefined iff the key is absent, else yields a value stored under it |
| Grid.RenderRow | src/pages/Book.jsx:280-288 | one cell per date column, each rendered from `data[date][time]` |
| Grid.RenderRows | src/pages/Book.jsx:275-276 | one row per time key |
| Grid.RenderShape | src/pages/Book.jsx:130-132 | rows are the first date's time keys, columns the date keys in order, each cell shows `data[date][time]` and opens the drawer iff that value passes the gate |
| Grid.NoRowsWithoutFirstDate | src/pages/Book.jsx:131-132 | an empty object, or a first date key "", yields no rows |
| Grid.LookupAtIndex | src/pages/Book.jsx:281 | each date column reads its own entry of the object |
| Grid.MissingTimeNotBookable | src/pages/Book.jsx:405-413 | a row time missing from some date gives an undefined cell that is not bookable and gets "bg-red-300" |
| Grid.BookableIffBelowLimit | src/pages/Book.jsx:288 | a present count opens the drawer iff it is below 5 |
| Grid.ColorBanding | src/pages/Book.jsx:163-181 | disabled gives grey-500; 0 to 4 give five distinct classes; undefined, negative and values above 4 give red |
| Grid.RedIffFull | src/pages/Book.jsx:163-181 | for non-negative counts red appears exactly on non-bookable cells; a negative count is bookable yet red |
| Grid.Render | src/pages/Book.jsx:275-418 | the loaded grid body; Grid.RenderShape and Grid.NoRowsWithoutFirstDate prove it one row per time of the first date and one column per date, each cell from `data[date][time]` |
| Grid.RenderCell | src/pages/Book.jsx:281-301 | one cell's value, gate and class; Grid.MissingTimeNotBookable and Grid.BookableIffBelowLimit prove it shows the stored count, opens the drawer iff that count is below 5, and is a closed red cell when the time is missing |
| Grid.Dates | src/pages/Book.jsx:130 | the columns; Grid.RenderShape proves each column is the date key at its position |
| Grid.TimeSlots | src/pages/Book.jsx:131-132 | the rows; Grid.RenderShape and Grid.NoRowsWithoutFirstDate prove them the first date's time keys, or none |
| Grid.CellValue | src/pages/Book.jsx:281 | `data[date][time]`; Grid.LookupAtIndex and Grid.MissingTimeNotBookable prove it reads the cell's stored count, or undefined |
| Grid.IsBookable | src/pages/Book.jsx:288 | the render gate; Grid.BookableIffBelowLimit proves it open iff a count is present and below 5 |
| Grid.Color | src/pages/Book.jsx:163-181 | `getColor`; Grid.ColorBanding and Grid.RedIffFull prove its banding |
| Booking.ConvertToISORoundTrip | src/pages/Book.jsx:183-186 | the instant is date + "T" + time + ":00"; splitting it at the first "T" recovers the date and the time with seconds when the date has no "T" |
| Booking.ConvertToISOExample | src/pages/Book.jsx:183-186 | ("2024-06-03", "22:30") gives "2024-06-03T22:30:00" |
| Booking.BookTriggerOnCatalogue | src/pages/Book.jsx:345-361 | the initial 0.5 h and every catalogue duration enable the Book trigger; 0 and "" disable it |
| Booking.EffectOf | src/pages/Book.jsx:198-213 | reload iff status 201; a failure toast iff a thrown error carries a response, showing its `error` field verbatim ("undefined" when absent) |
| Booking.ConvertToISO | src/pages/Book.jsx:183-186 | `convertToISO`; Booking.ConvertToISORoundTrip proves splitting at the first "T" inverts it |
| Booking.BookTriggerDisabled | src/pages/Book.jsx:345-361 | the trigger's check; Booking.BookTriggerOnCatalogue proves every offered duration passes it, and Booking.BookPage.BookSlot requires it |
| Booking.WeekCountUrl | src/pages/Book.jsx:107-110 | the week-count request; Booking.BookPage.StartFetch issues it |
| Booking.BookPage.constructor | src/pages/Book.jsx:96-100 | a mounted page has no data, no selected cell, 0.5 h selected and is not loading |
| Booking.BookPage.StartFetch | src/pages/Book.jsx:103-109 | the mount effect sets loading and issues the week-count request with the opening and closing times |
| Booking.BookPage.ReceiveWeekCount | src/pages/Book.jsx:111-114 | a parsed response (no key twice) clears loading and replaces the data wholesale |
| Booking.BookPage.OpenCell | src/pages/Book.jsx:288-294 | a click opens the drawer iff the grid is loaded and the cell is in it and passes the gate; it records the cell and leaves the duration unchanged |
| Booking.BookPage.ChooseDuration | src/pages/Book.jsx:320-326 | the toggle stores whatever value it is given |
| Booking.BookPage.BookSlot | src/pages/Book.jsx:188-214 | called with a cell selected and a duration that passes the trigger's check: exactly one request with the selected instant and duration; 201 resets the page to its mounted state, any other outcome keeps the state |
| Booking.OpenCellScenario | src/pages/Book.jsx:281-294 | for {"09:00": 2, "09:30": 5} the 09:00 cell opens with the whole catalogue and the 09:30 cell does not |
| Booking.BookLateSlotScenario | src/pages/Book.jsx:188-205 | booking 22:30 for 0.5 h sends "2024-06-03T22:30:00" with 0.5 h and reloads on 201 |
| Booking.RejectedBookingScenario | src/pages/Book.jsx:206-213 | a rejection shows "Slot taken" and keeps the cell and duration selected |
| Booking.StaleDurationScenario | src/pages/Book.jsx:98 | a 3 h choice survives a switch to 22:30 and is submitted although 22:30 offers only 0.5 h |
| NusId.AcceptsCharacterisation | src/pages/LoginPilot.jsx:19 | the pattern accepts exactly E/e, seven digits and optionally "@u", a non-terminator, "nus", a non-terminator, "edu"; accepted texts have length 8 or 18 |
| NusId.AcceptsExamples | src/pages/LoginPilot.jsx:19 | a bare ID, the full e-mail and an e-mail with loose dots are accepted |
| NusId.RejectsExamples | src/pages/LoginPilot.jsx:19 | six digits, another letter and a trailing ".sg" are rejected |
| NusId.NormaliseShape | src/pages/LoginPilot.jsx:32-34 | the result starts with "E" and ends with "@u.nus.edu" iff the input is not "@u.nus.edu" itself |
| NusId.NormaliseIdempotent | src/pages/LoginPilot.jsx:32-34 | normalising twice equals normalising once (for inputs other than "@u.nus.edu") |
| NusId.NormaliseAccepted | src/pages/LoginPilot.jsx:19-34 | an accepted input normalises to "E", its seven digits and the domain, and is stable |
| NusId.FullEmailAccepted | src/pages/LoginPilot.jsx:19 | "E", seven digits and the exact domain pass the check |
| NusId.NormaliseReaccepted | src/pages/LoginPilot.jsx:19-34 | the normal form of an accepted input passes again iff the input was a bare ID or already ended with the domain |
| NusId.NormaliseBareId | src/pages/LoginPilot.jsx:32-34 | "e1234567" becomes "E1234567@u.nus.edu" |
| NusId.NormaliseFullEmail | src/pages/LoginPilot.jsx:32-33 | "E1234567@u.nus.edu" is kept |
| NusId.NormaliseLooseDots | src/pages/LoginPilot.jsx:32-34 | "e1234567@uXnusYedu" becomes "E1234567@uXnusYedu@u.nus.edu" |
| NusId.NormaliseDomainAlone | src/pages/LoginPilot.jsx:32-33 | "@u.nus.edu" becomes "Eu.nus.edu" |
| NusId.Accepts | src/pages/LoginPilot.jsx:19 | `emailRegex.test`; NusId.AcceptsCharacterisation proves it equal to the positional description |
| NusId.Normalise | src/pages/LoginPilot.jsx:32-34 | the normaliser; NusId.NormaliseShape, NusId.NormaliseIdempotent and NusId.NormaliseReaccepted characterise it |
| LoginPage.LoginForm.constructor | src/pages/LoginPilot.jsx:12-13 | the form starts empty and not busy |
| LoginPage.LoginForm.Type | src/pages/LoginPilot.jsx:102 | typing replaces the e-mail text |
| LoginPage.LoginForm.HandleLogin | src/pages/LoginPilot.jsx:15-36 | the handler's events, busy flag, e-mail text and stored token are exactly those of LoginSpec; a rejected input leaves the text unchanged |
| LoginPage.LoginForm.TryAttempts | src/pages/LoginPilot.jsx:38-81 | the loop's events, busy flag and token store match the attempt specification |
| LoginPage.InvalidEmailSendsNothing | src/pages/LoginPilot.jsx:21-30 | a rejected input shows only the invalid-email toast, clears the busy flag, sends no POST and stores nothing |
| LoginPage.FirstSuccess | src/pages/LoginPilot.jsx:49 | the first attempt index whose outcome is a 200, or 3 |
| LoginPage.AttemptsPosts | src/pages/LoginPilot.jsx:38-62 | the run makes one POST per attempt up to the first 200 and stores that reply's token, or makes all and stores nothing |
| LoginPage.LoginAttemptsBound | src/pages/LoginPilot.jsx:38-62 | at most 3 POSTs; the first 200 at index i means i+1 POSTs and its token stored under the session key; no 200 means 3 POSTs and no token |
| LoginPage.AttemptsFailureToasts | src/pages/LoginPilot.jsx:64-80 | the failure toast is added once iff attempt 1 is reached and throws |
| LoginPage.FailureToastRule | src/pages/LoginPilot.jsx:64-80 | the "Login Failed" toast appears at most once, exactly when attempt 0 did not succeed and attempt 1 threw |
| LoginPage.LoginEndsIdle | src/pages/LoginPilot.jsx:47-71 | the busy flag is always clear when the handler ends |
| LoginPage.ThreeThrows | src/pages/LoginPilot.jsx:64-80 | three throws: POST, wait, POST, toast, POST, wait, with no token |
| LoginPage.ThreeRefusals | src/pages/LoginPilot.jsx:47-63 | three non-200 replies: three POSTs, no toast, no wait |
| LoginPage.AttemptsWaits | src/pages/LoginPilot.jsx:64-80 | from any attempt on, the waits added are one per attempt with index 0 or 2 that is made and throws |
| LoginPage.WaitRule | src/pages/LoginPilot.jsx:64-80 | the handler waits 1.5 s once if attempt 0 throws and once more if attempts 0 and 1 do not succeed and attempt 2 throws, and never otherwise |
| LoginPage.AttemptsWithoutThrows | src/pages/LoginPilot.jsx:38-63 | from any attempt on, when nothing throws the events added are one POST per attempt up to the first 200, then the success toast and the delayed redirect |
| LoginPage.NoThrowRun | src/pages/LoginPilot.jsx:38-63 | when no attempt throws, a non-200 reply adds only its POST: the run is POSTs up to the first 200 followed by the success toast and redirect, or three POSTs alone |
| LoginPage.Attempts | src/pages/LoginPilot.jsx:38-81 | the attempt loop as a recursive run; LoginPage.LoginForm.TryAttempts is proved equal to it and LoginPage.AttemptsPosts, LoginPage.AttemptsFailureToasts and LoginPage.AttemptsWaits characterise it |
| LoginPage.LoginSpec | src/pages/LoginPilot.jsx:15-81 | the whole handler; LoginPage.LoginAttemptsBound, LoginPage.FailureToastRule, LoginPage.WaitRule, LoginPage.NoThrowRun and LoginPage.LoginEndsIdle characterise it |
| Profile.SplitSpaces | src/pages/Profile.jsx:38 | `split(" ")` yields at least one piece and no piece contains a space |
| Profile.SplitJoin | src/pages/Profile.jsx:38 | joining the pieces with single spaces gives the original text back |
| Profile.SplitHead | src/pages/Profile.jsx:38 | the first piece runs to the first space and the rest are the pieces after it |
| Profile.InitialOfPiece | src/pages/Profile.jsx:39 | the first piece's initial is the upper-cased first character, or "" when the text starts with a space |
| Profile.GetInitialsByPosition | src/pages/Profile.jsx:37-43 | the initials are the upper-cased first character and the character after the first space, each only if it is not a space; at most two characters |
| Profile.GetInitialsEmpty | src/pages/Profile.jsx:66 | a missing name passed as "" gives "" |
| Profile.GetInitialsThreeWords | src/pages/Profile.jsx:41 | "ada king lovelace" gives "AK" |
| Profile.GetInitialsOneWord | src/pages/Profile.jsx:37-43 | "ada" gives "A" |
| Profile.GetInitialsEmptyPieces | src/pages/Profile.jsx:38-41 | " bob" gives "B" and "a  b" gives "A" |
| Profile.GetInitials | src/pages/Profile.jsx:37-43 | `getInitials`; Profile.GetInitialsByPosition proves it equal to the positional reading |
| Profile.Logout | src/pages/Profile.jsx:45-48 | the token key is removed, nothing else in storage changes, the location becomes "/login" and no token remains |
| Session.HasToken | src/Router.jsx:5-6 | the guards' `token ?` test; Routing.GuardsPartitionTokenStates and Routing.EmptyTokenIsAbsent prove a missing or "" token reads as signed out and any other as signed in |
| Session.GetItemRoundTrip | src/Router.jsx:5 | after `setItem(k, v)` reading k gives v, after `removeItem(k)` it gives null, and other keys read as before |
| Routing.MatchIn | src/App.jsx:20-31 | a canonical form selects a route iff some declared route has that path, and then yields that route's element |
| Routing.GuardsPartitionTokenStates | src/Router.jsx:4-16 | PrivateRoute renders iff a truthy token is stored, else redirects to "/login"; AuthRoute the reverse, redirecting to "/dashboard"; exactly one renders |
| Routing.EmptyTokenIsAbsent | src/Router.jsx:6 | an empty or missing token counts as absent for both guards |
| Routing.RouteTableShape | src/App.jsx:20-31 | over the constant `Routing.RouteTable` (the `<Routes>` declarations), a location selects a route iff its canonical form is "/", "/login", "/register" or "/dashboard"; each route's compiled pattern matches exactly the locations with that canonical form; "/" redirects to "/login", the auth pages are behind AuthRoute, the dashboard behind PrivateRoute |
| Routing.SignedInResolution | src/App.jsx:21-30 | with a token, "/", "/login", "/register" and "/dashboard" end at the dashboard after 2, 1, 1 and 0 redirects |
| Routing.SignedOutResolution | src/App.jsx:21-30 | without a token, "/" and "/dashboard" end at the login page after one redirect, "/login" and "/register" render directly |
| Routing.UnknownPathUnmatched | src/App.jsx:20-31 | a location whose canonical form is none of the declared paths matches no route |
| Routing.ResolveAsExpected | src/App.jsx:20-31 | with at least three steps of fuel, every location ends as the route its canonical form selects says: case and trailing-slash variants end like the declared path |
| Routing.ResolutionTerminates | src/Router.jsx:4-16 | from any path, in either token state, resolution ends within two redirects, visits no path twice, and extra fuel changes nothing |
| Routing.LoggedOutDashboard | src/pages/Profile.jsx:45-48 | after logout removes the token, "/dashboard" ends at the login page |
| Routing.LoggedInLogin | src/pages/LoginPilot.jsx:50 | after login stores a non-empty token under the same key, "/login" ends at the dashboard |
| Routing.CanonicalMatchesPattern | src/App.jsx:20-31 | for a path in declared form, a location has that canonical form iff the route's pattern (the path up to ASCII case, then only slashes) matches it |
| Routing.CanonicalIdempotent | src/App.jsx:20-31 | the canonical form of a canonical form is itself |
| Routing.StepIgnoresCaseAndSlashes | src/App.jsx:20-31 | a location and its canonical form render the same |
| Routing.DeclaredPathCanonical | src/App.jsx:21-30 | each declared path is in declared form and is its own canonical form |
| Routing.LoginInCapitals | src/App.jsx:22 | "/Login" selects the login route |
| Routing.DashboardInCapitals | src/App.jsx:27-30 | "/DASHBOARD" selects the dashboard route |
| Routing.LoginWithSlash | src/App.jsx:22 | "/login/" selects the login route |
| Routing.RootOfSlashes | src/App.jsx:21 | "//" selects the root route |
| Routing.PrivateRoute | src/Router.jsx:4-7 | the guard; Routing.GuardsPartitionTokenStates characterises it |
| Routing.AuthRoute | src/Router.jsx:13-16 | the guard; Routing.GuardsPartitionTokenStates characterises it |
| Routing.CanonicalPath | src/App.jsx:20-31 | the form the matcher compares; Routing.CanonicalMatchesPattern proves it equivalent to the compiled patterns |
| Routing.MatchRoute | src/App.jsx:20-31 | the route a location selects; Routing.RouteTableShape characterises it |
| Routing.TableMatch | src/App.jsx:21-30 | a canonical form selects a route iff it is one of the four declared paths, and each selects its own element |
| Routing.Step | src/App.jsx:20-31 | one render of a location; Routing.StepByRoute gives it route by route |
| Routing.StepByRoute | src/App.jsx:20-31 | a location renders as the route its canonical form selects: "/" redirects to "/login", the auth pages go through AuthRoute, the dashboard through PrivateRoute, anything else renders nothing |
| Routing.Resolve | src/App.jsx:20-31 | following redirects; Routing.ResolveAsExpected and Routing.ResolutionTerminates characterise it |

## Left out

- HTTP: `axiosInstance` is not part of this model. Each request's outcome is a parameter: a status, or a thrown error with or without an error payload. Whether a non-2xx status throws depends on that instance's configuration, so both forms are allowed.
- The login POST body's fixed password "Test123!" is not recorded; a `Post` event carries only the e-mail.
- `localStorage`, `window.location` and `setTimeout`: storage is a map, the 1.5 s waits and the 500 ms delayed redirect after a successful login are logged events with no real time, and `window.location.reload()` is modelled as the page returning to its freshly mounted state.
- A failed week-count fetch: the source has no handler for it, so `loading` stays true. The model covers this by never calling `ReceiveWeekCount`.
- Date formatting by date-fns and `Intl` (`formatDate`, `formatTime`, `formatDateTime`, the Monday-start `weekDates` labels): their output comes from library and locale code that is not visible.
- Book.jsx `weekDates` state and the loading skeleton's placeholder grid: these only render labels and placeholders.
- Grid.Keys: JavaScript lists array-index keys ("2", "10") first, in ascending numeric order, before the other keys; the model keeps entry order for every key. The server's "yyyy-MM-dd" and "HH:mm" keys are never array indices.
- Durations.AvailableDurations: reads the time only in the form "HH:mm", 00:00 to 23:59, and gives no durations for any other text. `parseISO` accepts more: "24:00" is the next midnight, and "0930", "09" and "09:30:00" are also read, so for these the source computes durations where the model gives none. Only a text that `parseISO` cannot read at all gives NaN and so no durations. The date argument is ignored, and timezone, DST and invalid-date effects of `parseISO` and `parse` are not modelled. The grid only ever passes the "HH:mm" row labels.
- React rendering: drawers, dialogs, toasts themselves (toasts are events or effects), Radix ToggleGroup value coercion (the toggle's value is kept as an uninterpreted JavaScript value), skeletons, console logging.
- Profile.Upper: maps only a-z to A-Z. Case mappings of other characters (some produce two characters) are not modelled. The two-character bound of `getInitials` is therefore proved only for this mapping, which is exact for ASCII.
- Strings are sequences of Unicode scalar values, not UTF-16 code units. `slice(1)` and `charAt(0)` on a character outside the Basic Multilingual Plane are not modelled.
- NusId.Accepts: each `.` of the pattern (which has no `u` flag) matches one UTF-16 code unit, but the model matches one character. A character outside the Basic Multilingual Plane is two code units. So the source rejects "e1234567@u😀nusXedu", which the model accepts with length 18.
- Profile's `/api/auth/me` fetch and `getFormattedDate`, whose helper is not part of this model.
- The Dock, Login, Register and Dashboard pages: not part of this model. Routing refers to them only as page names.
- LoginPage.LoginForm.HandleLogin: runs to completion without interleaving. The source clears `isLoggingIn` while attempts remain (LoginPilot.jsx lines 47 and 71), and the button is its only guard, so a second submit can start a second handler whose POSTs interleave with the first. The three-POST bound of LoginPage.LoginAttemptsBound holds per run.
- Booking.BookPage.BookSlot: runs to completion without interleaving. Confirm closes the drawer with nothing guarding the POST in flight, so a second `bookSlot` can start before the first finishes; the model treats each call as one atomic step.
- Routing.CanonicalPath: percent-decoding of the location is not modelled ("/%6Cogin" reaches the login route in the source and is unmatched here). Case folding is ASCII only, which is exact for these all-ASCII route paths, because the `i` flag without `u` never folds a non-ASCII character to an ASCII one.
- LoginPage.LoginForm.HandleLogin: it requires one outcome for each of the three possible attempts. Outcomes for attempts that are not made are ignored.
