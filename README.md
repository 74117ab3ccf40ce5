# Tommy Coconut site scripts, modelled in Dafny

This project models the browser-side behaviour of the Tommy Coconut marketing
site's four scripts:

- `hero-video-handler.js`: the hero video's load and fallback machine with its
  two timers, the mobile navigation toggle and the reviews carousel.
- `analytics.js`: the values the analytics layer computes, namely the page
  category, the device type, the CTA type, the phone label, the stored
  preferred contact method with its `page_exit` default, and the scroll-depth
  markers.
- `script.js`: the email test, field validation with its error messages, the
  newsletter submit flow, the navbar's scroll threshold, the anchor-link
  target and the scene timeline.
- `performance.js`: the head elements inserted when absent, the one-time
  start-up around DOM readiness, the inline sizes set to prevent layout
  shift, and the per-image `loading`/`loaded`/`error` classes.

Each script's decisions are written as functions on plain data. The proofs are
lemmas about those functions. Where a script updates page objects in place,
those objects are a Dafny `class` whose methods are proved to produce exactly
the state the functions describe. The modules are:

- `Dom`: class lists and the "only this one is `active`" update.
- `Strings`: `trim`, ASCII `toLowerCase`, `indexOf`/`includes`/`startsWith` and
  `replace` of the first occurrence.
- `HeroVideo`, `MobileNav` and `Carousel`: hero-video-handler.js.
- `Analytics` and `ScrollDepth`: analytics.js.
- `Site`: script.js.
- `Performance`: performance.js.

Timers and browser events are inputs supplied by the caller. A media event,
a timeout firing, a click, a scroll position or an image `load`/`error` each
becomes a method call or an element of an event sequence.

A few behaviours of the code as written have lemmas of their own, because
they are easy to misread:

- The video handler keeps no "already succeeded" flag and treats no failure as
  final. A readiness event that arrives after an `error` shows the video
  again (`ErrorThenReadinessShowsVideo`), and a late timer still runs its
  handler. `loadeddata` is the only event that clears the 3-second deadline.
- An error does not remove `video-loaded` from the container. Only the
  visible state is restored to the fallback (`LaterHandlerWins`).
- The newsletter listener has no guard of its own against a second
  submission while one is pending. If a second submission got through, the
  button would keep 'Subscribing...' (`DoubleSubmitKeepsSubscribing`). In a
  browser the disabled submit button normally stops that second submission.
- `showSlide` accepts any index. An index with no slide or no dot leaves
  those elements without `active`; this happens when a page has more dots than
  slides and a dot beyond the last slide is clicked (`DotClickThenNext`).
  `expandScene` is always called with an existing scene item, so
  `ExpandScene` requires an index within the items.

## Model

| member | source | states |
|---|---|---|
| Dom.Toggle | hero-video-handler.js:114-115 | `classList.toggle`: the class is present afterwards exactly when it was absent before, and no other class changes |
| Dom.ActiveOnly | hero-video-handler.js:155-167 | after stripping `active` from all and adding it at `index`, element k is active iff k == index, and other classes are untouched |
| Dom.ActiveOnlyCount | hero-video-handler.js:155-167 | exactly one element is active when the index is in range, and none when it is out of range |
| Dom.ActiveOnlyLastWins | hero-video-handler.js:155-167 | showing index i and then j leaves the same state as showing j alone |
| Dom.RemoveFromAll | hero-video-handler.js:157-158 | the `forEach` removal loop takes the class off every element and changes nothing else |
| Strings.TrimStart | script.js:287 | the result is a suffix of the input, the removed prefix is all white space, and the result does not start with white space |
| Strings.TrimEnd | script.js:287 | the result is a prefix of the input, the removed suffix is all white space, and the result does not end with white space |
| Strings.Trim | script.js:287 | `trim()` keeps a slice of the input and drops only white space before and after it; the result is empty exactly for all-white-space input, and otherwise starts and ends with a non-white-space character |
| Strings.TrimIsSlice | script.js:287 | trimming removes a white-space prefix and a white-space suffix and keeps what lies between |
| Strings.ToLower | analytics.js:340 | the length is kept, and every character is mapped by the ASCII lower-casing |
| Strings.ToLowerIdempotent | analytics.js:340 | lower-casing twice is lower-casing once |
| Strings.IndexFrom | analytics.js:343 | the search returns the first match at or after `from`, or -1 when there is none |
| Strings.IndexOf | analytics.js:343-349 | `indexOf` returns the first occurrence, and -1 exactly when the pattern occurs nowhere |
| Strings.StartsWithContains | analytics.js:134 | a string that starts with a pattern contains it at index 0 |
| Strings.RemoveFirst | analytics.js:137 | `replace(pat, '')` leaves a string without `pat` unchanged, and otherwise removes exactly the first occurrence |
| Strings.RemoveFirstPrefix | analytics.js:137 | removing a leading pattern leaves the rest of the string |
| HeroVideo.LoadShowsVideo | hero-video-handler.js:19-36 | `handleVideoLoad` shows the video at opacity 1, hides an existing placeholder, marks an existing container `video-loaded`, and leaves the timers and readiness alone |
| HeroVideo.LoadIdempotent | hero-video-handler.js:19-36 | running the load handler repeatedly is the same as running it once |
| HeroVideo.FailShowsFallback | hero-video-handler.js:39-48 | `handleVideoError` hides the video at opacity 0, shows an existing placeholder, and leaves the container untouched |
| HeroVideo.FailIdempotent | hero-video-handler.js:39-48 | running the error handler repeatedly is the same as running it once |
| HeroVideo.LaterHandlerWins | hero-video-handler.js:19-48 | load after error is the same as load alone; error after load looks like error alone, but `video-loaded` stays |
| HeroVideo.LookDependsOnElements | hero-video-handler.js:19-48 | what each handler shows depends only on which optional elements exist |
| HeroVideo.ProbeDecision | hero-video-handler.js:77-83 | the 500 ms probe runs the load handler iff readyState >= 2, and otherwise changes nothing but itself |
| HeroVideo.FallbackDecision | hero-video-handler.js:86-95 | the 3000 ms deadline takes the load path iff readyState >= 1, and the error path otherwise |
| HeroVideo.FallbackClearedIsInert | hero-video-handler.js:97-100 | a deadline that has fired or been cleared does nothing |
| HeroVideo.OnlyLoadedDataClears | hero-video-handler.js:63-100 | `loadeddata` always clears the deadline, only it and the deadline itself can, and nothing re-arms it |
| HeroVideo.Step | hero-video-handler.js:63-100 | one event keeps the page's elements, never re-arms the deadline and never removes `video-loaded` |
| HeroVideo.Run | hero-video-handler.js:63-100 | the same three facts hold over any sequence of events |
| HeroVideo.StepKeeps | hero-video-handler.js:63-100 | no event adds or removes page elements, and `video-loaded` once present stays |
| HeroVideo.StepLook | hero-video-handler.js:63-100 | each event's visible effect is exactly the effect of the handler it runs, and none when it runs none |
| HeroVideo.RunKeepsElements | hero-video-handler.js:63-100 | over any event sequence the set of page elements is unchanged |
| HeroVideo.RunLook | hero-video-handler.js:63-100 | after any event sequence, the visible state is the one left by the last handler that ran, or the initial one if none ran |
| HeroVideo.RunVideoLoaded | hero-video-handler.js:28-30 | the container ends marked `video-loaded` iff it started marked or some event ran the load handler |
| HeroVideo.LoadedDataDisarms | hero-video-handler.js:97-100 | once `loadeddata` has been delivered, the deadline never fires |
| HeroVideo.ErrorThenReadinessShowsVideo | hero-video-handler.js:63-68 | an error followed by any readiness event shows the video: failure is not final |
| HeroVideo.DeadlineAlone | hero-video-handler.js:50-95 | with no media events, a deadline at readiness 0 shows the fallback, and any data shows the video |
| HeroVideo.HeroVideoHandler.constructor | hero-video-handler.js:6-95 | the listener's initial state: the video is visible and both timers are armed |
| HeroVideo.HeroVideoHandler.HandleVideoLoad | hero-video-handler.js:19-36 | the element fields become `Load` of the old state |
| HeroVideo.HeroVideoHandler.HandleVideoError | hero-video-handler.js:39-48 | the element fields become `Fail` of the old state |
| HeroVideo.HeroVideoHandler.Dispatch | hero-video-handler.js:63-100 | delivering one event sets the fields to `Step` of the old state |
| HeroVideo.HeroVideoHandler.DispatchAll | hero-video-handler.js:63-100 | delivering a sequence in a loop sets the fields to `Run` of the old state |
| MobileNav.ToggleClickFlips | hero-video-handler.js:113-119 | a toggle click flips the menu and the toggle, and the body is `hidden` iff the menu is now open |
| MobileNav.ClickCloses | hero-video-handler.js:122-138 | a menu-link or outside click closes both and restores scrolling; another click inside the menu changes nothing |
| MobileNav.ToggleTwice | hero-video-handler.js:113-119 | two toggle clicks return a consistent state to itself |
| MobileNav.ClickKeepsConsistent | hero-video-handler.js:113-138 | every click keeps toggle, menu and body overflow in agreement |
| MobileNav.ClicksKeepConsistent | hero-video-handler.js:113-138 | every click sequence keeps toggle, menu and body overflow in agreement |
| MobileNav.ClicksOpen | hero-video-handler.js:113-138 | the menu ends open iff an odd number of toggle clicks followed the last closing click (counting from the start state if there was none) |
| MobileNav.MobileNavHandler.constructor | hero-video-handler.js:107-111 | setting up listeners leaves the page state as it was |
| MobileNav.MobileNavHandler.ToggleClicked | hero-video-handler.js:113-119 | the fields become `ToggleMenu` of the old state |
| MobileNav.MobileNavHandler.Close | hero-video-handler.js:124-128 | the fields become `CloseMenu` of the old state |
| MobileNav.MobileNavHandler.DocumentClicked | hero-video-handler.js:132-138 | the fields become `DocumentClick` of the old state |
| MobileNav.MobileNavHandler.Clicked | hero-video-handler.js:113-138 | a click runs the target's listener and then the document's |
| Carousel.Next | hero-video-handler.js:169-172 | the next index is always in range |
| Carousel.Prev | hero-video-handler.js:174-177 | the previous index is always in range |
| Carousel.NextStep | hero-video-handler.js:169-172 | next moves one forward, and wraps from the last slide to 0 |
| Carousel.PrevStep | hero-video-handler.js:174-177 | previous moves one back, and wraps from 0 to the last slide |
| Carousel.PrevNext | hero-video-handler.js:169-177 | previous and next undo each other on in-range indices |
| Carousel.NextTimesForward | hero-video-handler.js:169-172 | k presses of next that do not pass the end move k slides |
| Carousel.NextTimesAdd | hero-video-handler.js:169-172 | a presses and then b presses equal a + b presses |
| Carousel.NextFullCycle | hero-video-handler.js:169-172 | as many presses as there are slides return to the starting slide |
| Carousel.DotClickThenNext | hero-video-handler.js:155-172 | after a dot click exactly the dot's slide is active if it exists and no slide otherwise; the next press then shows slide `Next(index, n)`, which always exists |
| Carousel.ReviewsCarousel.constructor | hero-video-handler.js:145-153 | set-up starts at slide 0 with only the first slide and dot active |
| Carousel.ReviewsCarousel.ShowSlide | hero-video-handler.js:155-167 | both slides and dots become `ActiveOnly` of their old classes at `index` |
| Carousel.ReviewsCarousel.NextSlide | hero-video-handler.js:169-172 | the index advances by `Next`, and that slide and dot alone are active |
| Carousel.ReviewsCarousel.PrevSlide | hero-video-handler.js:174-177 | the index moves back by `Prev`, and that slide and dot alone are active |
| Carousel.ReviewsCarousel.DotClicked | hero-video-handler.js:189-194 | the index becomes the dot's index, and that slide and dot alone are active |
| Analytics.PageCategory | analytics.js:339-352 | the category is Home exactly for the lower-cased paths '/' and '/index.html' |
| Analytics.GetPageCategory | analytics.js:339-352 | the label is 'home' exactly for the home paths, and otherwise the label of the first matching keyword rule, or 'other' |
| Analytics.CategoryLabelInjective | analytics.js:342-351 | different categories are sent under different labels |
| Analytics.FirstMatchIsFirst | analytics.js:343-349 | the rule table picks the first rule whose keyword occurs |
| Analytics.FirstMatchNone | analytics.js:351 | with no keyword present the table gives 'other' |
| Analytics.PageCategoryByRules | analytics.js:339-352 | `getPageCategory` is the home test followed by the ordered keyword table on the lower-cased path |
| Analytics.HomeFirst | analytics.js:342 | '/' and '/index.html', in any case, are 'home' before any keyword rule |
| Analytics.PageCategoryFirstRule | analytics.js:343-349 | a non-home path gets the category of the first keyword it contains |
| Analytics.PageCategoryOther | analytics.js:351 | a non-home path without any keyword is 'other' |
| Analytics.PageCategoryIgnoresCase | analytics.js:340 | paths equal up to ASCII case get the same category |
| Analytics.PageCategoryOfLowered | analytics.js:340 | classifying the lower-cased path gives the same category |
| Analytics.DeviceType | analytics.js:330-336 | Tablet iff the tablet test matches, Mobile iff it does not and the mobile test does, Desktop otherwise |
| Analytics.GetDeviceType | analytics.js:327-337 | the label is one of 'tablet', 'mobile' and 'desktop', taken from the user agent, else the vendor, else `window.opera`, whichever is first non-empty |
| Analytics.NoAgentIsDesktop | analytics.js:328-336 | with no user agent, vendor or `window.opera`, the tested string 'undefined' gives 'desktop' |
| Analytics.TabletWins | analytics.js:330-331 | a tablet keyword gives 'tablet', whatever mobile keywords are also present |
| Analytics.MobileWithoutTablet | analytics.js:332-333 | without a tablet keyword, a mobile keyword or `windows\sce` gives 'mobile' |
| Analytics.DesktopIff | analytics.js:334-336 | 'desktop' iff neither keyword test matches |
| Analytics.DeviceTypeIgnoresCase | analytics.js:330-332 | the `/i` tests make the device type independent of ASCII case |
| Analytics.DeviceTypeOfLowered | analytics.js:330-332 | testing the lower-cased string gives the same device type |
| Analytics.CtaType | analytics.js:113 | 'primary' iff the element has `btn-primary`, and 'contact' otherwise |
| Analytics.PhoneLabelOfTelLink | analytics.js:134-137 | for a `tel:` link, the label is the number after the scheme |
| Analytics.PhoneLabelRemovesOne | analytics.js:137 | the label is the href without its first `tel:`, or the href itself if it has none |
| Analytics.ContactListeners | analytics.js:134-184 | a link gets the phone, WhatsApp and email listeners exactly when it matches `tel:`-prefix, `wa.me`/`whatsapp`-substring and `mailto:`-prefix |
| Analytics.RecordedIsLast | analytics.js:147-181 | the stored method is the last one written, or the earlier value if nothing was written |
| Analytics.ExitContactLabel | analytics.js:378 | `preferred_contact` is 'none' iff nothing was stored, and otherwise the stored method |
| Analytics.ContactSession.constructor | analytics.js:132 | a session starts with whatever an earlier page stored |
| Analytics.ContactSession.LinkClicked | analytics.js:134-184 | each matching listener overwrites the entry, in the order the listeners were added |
| Analytics.ContactSession.PageExitContact | analytics.js:378 | `preferred_contact` is 'none' iff the session holds no entry, and otherwise the stored method's label |
| ScrollDepth.FireFrom | analytics.js:236-250 | the marker loop only appends to the fired list |
| ScrollDepth.ReachedCount | analytics.js:228 | at most the four markers can be reached |
| ScrollDepth.ReachedIsPrefix | analytics.js:228 | the markers reached at p are the first ReachedCount(p) markers |
| ScrollDepth.ScrollStep | analytics.js:236-250 | a scroll event reports only reached, unfired markers, each once, and afterwards every marker at or below the percentage has fired |
| ScrollDepth.FireFromComplete | analytics.js:236-250 | every marker the loop visits that the percentage reaches is in the fired list afterwards |
| ScrollDepth.FireFromPrefix | analytics.js:236-250 | from a prefix of the markers, the loop leaves the longer of that prefix and the reached markers |
| ScrollDepth.ScrollStepPrefix | analytics.js:236-250 | one scroll event from the first k fired leaves the first max(k, reached) fired |
| ScrollDepth.ScrollStepReached | analytics.js:236-250 | from the markers reached at a, scrolling to p leaves those reached at max(a, p) |
| ScrollDepth.ScrollAllReached | analytics.js:231-251 | after any scroll sequence, the fired markers are those at or below the highest percentage seen |
| ScrollDepth.FromFreshPage | analytics.js:228-251 | on a fresh page, the fired list is a prefix of the markers and never repeats a marker |
| ScrollDepth.FireFromReports | analytics.js:237-238 | a scroll reports only markers it reached that had not fired before, each once |
| ScrollDepth.ScrollTracker.constructor | analytics.js:229 | `firedMarkers` starts empty |
| ScrollDepth.ScrollTracker.Scrolled | analytics.js:236-250 | the loop appends exactly the reported markers, and the new list is `ScrollStep` of the old one |
| Site.EmailDecision | script.js:330-332 | the direct test (no white space, exactly one '@' after a non-empty part, a '.' strictly inside the domain) agrees with the regular expression on every string |
| Site.ValidEmailMatches | script.js:330-332 | a string the direct test accepts is matched by the regular expression |
| Site.MatchIsValidEmail | script.js:330-332 | a string the regular expression matches passes the direct test |
| Site.EmptyIsNotEmail | script.js:178 | the empty string is not an email |
| Site.Validate | script.js:285-304 | the required message is given exactly for a required all-white-space field, only the two messages are ever given, and an accepted email field is blank or valid once trimmed |
| Site.RequiredComesFirst | script.js:293-296 | a blank required field gets the required message, before any email check |
| Site.EmailFieldCheck | script.js:298-301 | a non-blank email field is rejected iff its trimmed value does not match the pattern |
| Site.OptionalBlankAccepted | script.js:293-303 | a blank optional field is accepted whatever its type |
| Site.ValidateTable | script.js:285-304 | the whole decision: only two messages, and exactly when each is given |
| Site.OneErrorPerField | script.js:306-325 | a field's parent never holds more than one error, and it is the latest verdict's |
| Site.FieldParent.constructor | script.js:308 | a parent starts with the given error messages |
| Site.FormField.constructor | script.js:276 | a field starts with its value, attributes and classes |
| Site.FormField.ClearFieldError | script.js:306-315 | the parent's first error is removed, if any, and so is the class `error` |
| Site.FormField.ShowFieldError | script.js:317-325 | the field gets `error` and the parent gets the message appended |
| Site.FormField.ValidateField | script.js:285-304 | the result is true iff the verdict accepts, `error` is set iff it rejects, and the parent's errors follow `ErrorsAfter` |
| Site.FormField.Typed | script.js:280 | typing sets the value and clears the error |
| Site.Submit | script.js:172-187 | an email that matches the pattern disables the button, shows 'Subscribing...' and saves the old text; any other email only adds the error message |
| Site.Complete | script.js:189-195 | the oldest pending completion thanks the user, empties the email, re-enables the button and restores the text that submission saved |
| Site.SubmitGuard | script.js:178 | `!email \|\| !isValidEmail(email)` is exactly "does not match the pattern" |
| Site.SubmitRejected | script.js:178-181 | a rejected submission only shows the error message |
| Site.SubmitThenComplete | script.js:183-195 | an accepted submission disables the button and shows 'Subscribing...'; completion thanks the user, empties the email and restores the button |
| Site.DoubleSubmitKeepsSubscribing | script.js:184-195 | two accepted submissions before completion leave the button reading 'Subscribing...' |
| Site.NewsletterForm.constructor | script.js:168-172 | the form starts empty, with its button enabled and nothing pending |
| Site.NewsletterForm.EmailTyped | script.js:175 | the email input's value changes |
| Site.NewsletterForm.Submitted | script.js:172-187 | the fields become `Submit` of the old state |
| Site.NewsletterForm.Completed | script.js:189-195 | the fields become `Complete` of the old state |
| Site.NavbarThreshold | script.js:44-52 | `scrolled` is present iff scrollY > 100, and other classes are untouched |
| Site.NavbarLatestWins | script.js:43-53 | only the latest scroll position decides the navbar |
| Site.NavbarElement.constructor | script.js:41 | the navbar starts with the given classes and styles |
| Site.NavbarElement.WindowScrolled | script.js:43-53 | the fields become `NavbarOnScroll` of the old state |
| Site.AnchorTarget | script.js:229-233 | '#name' targets id 'name', and navigation is taken over iff such an element exists (never for '#') |
| Site.ExpandScene | script.js:107-114 | only the chosen scene item is active, and other classes are kept |
| Site.SceneKeyDown | script.js:93-98 | Enter or space prevents the default and expands the scene; other keys change nothing |
| Performance.Stabilize | performance.js:11-28 | the head keeps its elements in place, gains at most two, and afterwards has both the safe-mode link and the viewport meta |
| Performance.StabilizeAppends | performance.js:11-28 | existing elements stay in place, and only the missing link and meta are appended |
| Performance.StabilizeCounts | performance.js:11-28 | afterwards there is exactly one of each element that was missing, and the old number of each that was present |
| Performance.StabilizeIdempotent | performance.js:11-28 | running the stabilisation again changes nothing |
| Performance.InitializesOnce | performance.js:34-39 | nothing runs while loading, and the optimisations run exactly once when the DOM is ready |
| Performance.SlotUnsetSized | performance.js:84-89 | an unset height becomes 250px with object-fit cover, and other properties are kept |
| Performance.SlotSetUnchanged | performance.js:85 | a set height is left alone, and sizing twice is sizing once |
| Performance.ContainerNeedsHero | performance.js:60-73 | the video container is positioned only when a hero exists |
| Performance.PrepareMarks | performance.js:100-104 | a complete image gets `loaded` and no listeners; an incomplete one gets `loading` and listens |
| Performance.OnImageEvent | performance.js:105-114 | an image without listeners is unchanged; with them `loading` is removed and no class other than the three image classes changes |
| Performance.OneEventOneClass | performance.js:105-114 | one event removes `loading` and adds only its own class |
| Performance.EventsClasses | performance.js:105-114 | after any events, `loaded` and `error` were added exactly by events of their kind |
| Performance.LoadedNeverError | performance.js:100-114 | a still-loading image that then loads without error ends `loaded` and never `error` |
| Performance.CompleteImageIgnoresEvents | performance.js:100-101 | an image without listeners never changes on events |
| Performance.Page.constructor | performance.js:7-10 | the page as the script finds it |
| Performance.Page.PreventLayoutShift | performance.js:58-90 | the hero, its video container, the navbar and every image slot get the sizes above, in place |
| Performance.Page.OptimizeImageLoading | performance.js:95-117 | every image becomes `Prepare` of its old state |
| Performance.Page.InitializeOptimizations | performance.js:41-52 | both passes run, and the run count goes up by one |
| Performance.Page.StabilizeHead | performance.js:11-28 | the head becomes `Stabilize` of the old head, and nothing else on the page changes |
| Performance.Page.RunScript | performance.js:7-39 | stabilises the head, then runs the optimisations now or defers them while loading |
| Performance.Page.DomContentLoadedFired | performance.js:34-35 | the deferred run happens once, when the DOM is ready |
| Performance.Page.ImageEventFired | performance.js:105-114 | only the image that received the event changes |

## Left out

- Calls to `gtag` and `console` are not modelled. Events whose only effect is an analytics call or a log line have no counterpart, for example `stalled`, the hero CTA and navigation tracking, external links and the custom-event export.
- Real time is not modelled. The 500 ms, 1500 ms, 3000 ms, 5 s and 8 s timers become events or method calls delivered by the caller, in any order the caller chooses.
- `throttle` is not modelled, and neither is the scroll percentage arithmetic, which uses floating point. The scroll model takes the already rounded percentage as an integer, and the navbar model takes `scrollY` in whole pixels.
- `IntersectionObserver`, `MutationObserver`, `PerformanceObserver` and `document.fonts` are not modelled. This covers the section reveal, the trust-indicator animation, the Lodgify search tracking, the layout-shift log and the `fonts-loaded` class.
- `handleCriticalResources` is not modelled. Its font and widget styling depend on `document.fonts` and fixed positioning, which are outside the model.
- `play()`, `scrollIntoView` and the hover transforms are not modelled, because they are media and presentation effects without decisions.
- `heroVideo.load()` (hero-video-handler.js:74) is not modelled as a call. It resets `readyState` to 0 and may fire `abort`, which runs the error handler. The model covers both effects, because `ReadyStateChange(0)` and `Abort` are events that can arrive at any point of a sequence.
- The video element's fixed attributes (`muted`, `playsInline`, `autoplay`, `loop`, `controls`) and its `transition` style are not modelled.
- `showMessage` is reduced to the list of messages shown. Its styling, its animation style element and its removal after 5 s or on click are not modelled.
- Video readiness is not modelled as ordered. `readyState` is an input that can move to any level 0 to 4 at any time.
- Strings.ToLower: lower-cases only ASCII letters. For the page category this is exact because `location.pathname` is percent-encoded and so holds only ASCII characters. The device tests are `/i` regular expressions without the `u` flag; their case-insensitive matching never maps a character at or above U+0080 to an ASCII one, so the ASCII mapping gives the same matches.
- Strings: a `char` is a Unicode scalar value, while a JavaScript string is a sequence of UTF-16 code units. A character outside the Basic Multilingual Plane is one `char` here and two code units in the browser, and lone surrogates cannot occur. Lengths and indices differ only for such characters; no decision of the model depends on them.
- Performance.Page.RunScript: appends created elements at the end of the queried element list. Their position inside `document.head`, relative to the rest of the document, is not modelled.
- Performance.Page: image slots and images are separate arrays. An `img` that matches both the slot selectors and `img` is not aliased; it would receive both its style and its classes.
- Site.NewsletterForm.Completed: `reset()` empties the email input. A default `value` attribute on the input is not modelled.
- Analytics.ContactSession: `sessionStorage` is a single optional field. Its lifetime across pages and other keys are not modelled.
- DOM queries are not modelled. The elements found by `querySelector`/`querySelectorAll` become the model's fields and arrays, and a missing element becomes `None` or a set-up that does not happen (the hero handler without a video, the nav handler without toggle or menu, the carousel without slides).
- Carousel: the dot listeners are attached only to dots that exist, so `DotClicked` requires an index within the dots.
- The exported `window.TommyCoconut` and `window.TommyCoconutAnalytics` objects are not modelled. They only re-export functions that are modelled, or wrap `gtag`.
