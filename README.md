# Falcon View landing page: the tab indicator engine and the contact-form machine

A Dafny model of the two stateful parts of the Falcon View Group landing page:

- **The tab navigation bar** (`src/TabNavigation.jsx`). There are three tabs: "How we help", "About" and "Contact".
  - The component keeps four pieces of state: the hovered tab (or none), the active tab, the hover-highlight geometry and the active-underline geometry.
  - Both geometries are copied from the measured `offsetLeft`/`offsetWidth` of the tab elements. When an element is missing, the old geometry is kept.
  - A click selects the tab, maps its label to a section id and scrolls there, but only if such a section exists.
- **The contact form** (`src/App.jsx`).
  - `handleSubmit` drives three flags (`sending`, `sent`, `err`) around its one awaited relay call.
  - It captures the trimmed values of the five form controls.
  - It turns them into the relay's template payload, addressed to `info@falconviewgroup.io`.
  - On success it resets the form; on failure it keeps the form and shows one fixed retry message.
  - The line next to the submit button shows exactly one of: thanks, the error, or "Goes to …".
  - The same component toggles the mobile menu.

Files:

- `wrappers.dfy`: `Option`.
- `js_string.dfy`, module `JsString`: the ECMAScript string built-ins the components use. These are the whitespace class shared by `trim` and `\s`, `trim` itself, `toLowerCase`, and `replace(/\s+/g, '-')`.
- `tab_navigation.dfy`, module `TabNavigation`:
  - the tab state as a value (`TabState`);
  - one transition function per effect or handler;
  - the rendered opacity and colours;
  - lemmas over event sequences;
  - the class `TabBar`, whose fields are the component's state and whose methods are tied to the transition functions.
- `app.dfy`, module `App`:
  - the relay payload;
  - the submission flags and their transitions;
  - the feedback line;
  - runs of submit and settle events;
  - the class `ContactForm`, the DOM form, mutated by typing and `reset()`;
  - the class `AppComponent`, holding the page's flags and the mobile menu.

How the model treats the browser and the rest of the page:

- **Layout.** The layout read is a parameter `Layout = map<nat, Rect>`. A tab index without an entry is an element that is not mounted.
- **Anchors.** `document.getElementById` is membership in a set of ids. `PageAnchors` holds the ids of the main element and the three sections of src/App.jsx; that file does not itself mount the tab bar. `scrollIntoView` is the returned `Option<string>` naming the section scrolled to.
- **The relay.** The relay call is split at its `await`:
  - `BeginSubmit` returns the request;
  - `CompleteSubmit(success)` takes the relay's outcome as an input.
- **React semantics.**
  - An effect keyed on a state variable re-runs only when that variable changes. So entering the tab that is already hovered, or clicking the tab that is already active, does not re-measure.
  - The first commit runs every effect once (`Mount`).
  - The animation frame scheduled on mount is its own event (`AnimationFrame`). It measures tab 0, whichever tab is active by then.
  - `FrameAfterClickMisaligns` shows the consequence: a click that lands before that frame leaves the underline under tab 0 while another tab is drawn active.
- **Browser validation.** The browser's native validation is the precondition `NativeValid` of `BeginSubmit`: the `required` name, email and message controls must be non-empty. `PressSubmit` models the disabled-button gate: while a call is in flight, a press does nothing.

Three behaviours of the code worth knowing:

- **Re-measuring on click.** The underline is re-measured only when the active index changes. A click on the active tab re-measures nothing.
- **The first animation frame.** It measures tab 0, not the active tab. So the underline can drift from the active tab in two ways: the layout changes after the last measurement, or that frame lands after a click on another tab. In both cases it stays off until a click on a different tab re-measures it: see `RunKeepsAligned`, `FrameKeepsAligned`, `FrameAfterClickMisaligns` and `ClickRealigns`.
- **Required fields.** For the name and message controls, browser validation checks the untrimmed values. A name made only of spaces passes `required` and is sent as the empty string after trimming.

## Model

| member | source | states |
|---|---|---|
| `JsString.TrimStartShape` | src/App.jsx:104 | the input is a whitespace prefix followed by the leading strip's result, which does not start with whitespace |
| `JsString.TrimEndShape` | src/App.jsx:104 | the input is the trailing strip's result followed by a whitespace suffix, and that result does not end with whitespace |
| `JsString.TrimStart` | src/App.jsx:104-108 | no contract of its own; its properties are in `TrimStartShape` and `TrimStartPastRun` |
| `JsString.TrimEnd` | src/App.jsx:104-108 | no contract of its own; its properties are in `TrimEndShape` |
| `JsString.Trim` | src/App.jsx:104-108 | the trimmed value neither starts nor ends with whitespace and is no longer than the input |
| `JsString.TrimCutsWhiteSpace` | src/App.jsx:104-108 | every value splits into a whitespace prefix, its trimmed form and a whitespace suffix |
| `JsString.TrimSplits` | src/App.jsx:104-108 | the prefix cut by the leading strip and the suffix cut by the trailing strip are both whitespace |
| `JsString.TrimOfTrimmed` | src/App.jsx:104-108 | a value with no outer whitespace is captured unchanged |
| `JsString.TrimIdempotent` | src/App.jsx:104-108 | trimming twice is trimming once |
| `JsString.TrimStartPastRun` | src/App.jsx:104-108 | stripping removes a whole whitespace run and nothing after it |
| `JsString.TrimAllWhiteSpace` | src/App.jsx:104-108 | a control holding only whitespace is captured as the empty string |
| `JsString.LowerChar` | src/TabNavigation.jsx:51 | a capital ASCII letter maps to its lower-case letter and every other character is kept |
| `JsString.ToLowerCase` | src/TabNavigation.jsx:51 | no contract of its own; its properties are in `ToLowerCaseShape`, `ToLowerCaseConcat` and `ToLowerCaseNoUpper` |
| `JsString.ToLowerCaseShape` | src/TabNavigation.jsx:51 | lower-casing keeps the length, leaves no capital ASCII letter, and keeps whitespace positions and non-capitals |
| `JsString.ToLowerCaseConcat` | src/TabNavigation.jsx:51 | lower-casing a concatenation lower-cases each part |
| `JsString.ToLowerCaseNoUpper` | src/TabNavigation.jsx:51 | a string without capitals is its own lower-case form |
| `JsString.DashWhiteSpaceRuns` | src/TabNavigation.jsx:51 | no contract of its own; its properties are in `DashWhiteSpaceRunsShape`, `DashRun` and `DashBetweenWords` |
| `JsString.DashRunsFrom` | src/TabNavigation.jsx:51 | no contract of its own; its properties are in `DashRunsShape` and `RunAbsorbed` |
| `JsString.DashRunsShape` | src/TabNavigation.jsx:51 | the run replacement leaves no whitespace, adds no capital, never lengthens, and keeps a whitespace-free string as it is |
| `JsString.DashWhiteSpaceRunsShape` | src/TabNavigation.jsx:51 | the same for `replace(/\s+/g, '-')` starting outside a run |
| `JsString.RunAbsorbed` | src/TabNavigation.jsx:51 | after the hyphen of a run, the rest of the run adds nothing |
| `JsString.DashRun` | src/TabNavigation.jsx:51 | a whole whitespace run, however long, becomes one hyphen, and the word before it is kept |
| `JsString.DashBetweenWords` | src/TabNavigation.jsx:51 | three words separated by spaces come out separated by hyphens |
| `TabNavigation.AnchorId` | src/TabNavigation.jsx:51-52 | the id computed from a label has no whitespace and no capital letter |
| `TabNavigation.ThreeWordAnchor` | src/TabNavigation.jsx:51-52 | a three-word label becomes its lower-cased first word and the other two joined by hyphens, with "how-we-help" sent to "help" |
| `TabNavigation.HelpAnchor` | src/TabNavigation.jsx:51-52 | "How we help" becomes "how-we-help", which is sent to "help" |
| `TabNavigation.HelpWords` | src/TabNavigation.jsx:51-52 | the first label is the words "How", "we" and "help" separated by spaces, and their hyphen-joined form is the slug the component special-cases |
| `TabNavigation.AboutAnchor` | src/TabNavigation.jsx:51-52 | "About" navigates to "about" |
| `TabNavigation.ContactAnchor` | src/TabNavigation.jsx:51-52 | "Contact" navigates to "contact" |
| `TabNavigation.PlainAnchor` | src/TabNavigation.jsx:51-52 | a single capitalised word navigates to its lower-case form |
| `TabNavigation.TabAnchors` | src/TabNavigation.jsx:51-52 | the three labels navigate to "help", "about" and "contact" |
| `TabNavigation.TabsReachPage` | src/TabNavigation.jsx:52-55 | each label's id is one of the section ids src/App.jsx defines, and distinct tabs have distinct ids |
| `TabNavigation.Initial` | src/TabNavigation.jsx:6-9 | no hovered tab, tab 0 active, no hover style yet, underline at left 0 and width 0 |
| `TabNavigation.HoverEffect` | src/TabNavigation.jsx:12-23 | no contract of its own; its behaviour is stated by the ensures of `OnMount`, `OnEnter`, `OnLeave` and `EnterThenLeave` |
| `TabNavigation.ActiveEffect` | src/TabNavigation.jsx:25-34 | no contract of its own; its behaviour is stated by the ensures of `OnMount`, `OnClick` and `RunKeepsAligned` |
| `TabNavigation.OnMount` | src/TabNavigation.jsx:12-34 | the first run of the effects puts the underline under the active tab if measured, and touches the highlight only if a tab is hovered |
| `TabNavigation.OnFirstFrame` | src/TabNavigation.jsx:36-47 | the frame callback copies tab 0's geometry if tab 0 is mounted, else keeps the underline; the rest is unchanged |
| `TabNavigation.OnEnter` | src/TabNavigation.jsx:12-23 | entering tab i hovers i; the highlight takes tab i's geometry when the hovered index changed and i is measured, else keeps the old one |
| `TabNavigation.OnLeave` | src/TabNavigation.jsx:12-23 | leaving clears the hovered index and keeps the highlight geometry and the active state |
| `TabNavigation.OnClick` | src/TabNavigation.jsx:25-34 | a click activates i; the underline takes tab i's geometry when the active index changed and i is measured, else keeps the old one |
| `TabNavigation.ScrollTarget` | src/TabNavigation.jsx:49-56 | the page scrolls exactly when an element with the label's id exists, and then to that id |
| `TabNavigation.HighlightOpacity` | src/TabNavigation.jsx:71 | the highlight's opacity is 1 exactly when a tab is hovered, else 0 |
| `TabNavigation.TabColour` | src/TabNavigation.jsx:105-107 | no contract of its own; `ActiveTabs` states that exactly the active tab gets the active colour |
| `TabNavigation.ActiveTabs` | src/TabNavigation.jsx:105-107 | the set of tabs drawn in the active colour is exactly the active one |
| `TabNavigation.RunKeepsAligned` | src/TabNavigation.jsx:25-34 | under a fixed layout, any sequence of hovers, exits and clicks keeps the state valid, keeps the underline under the active tab, and leaves the last-clicked tab active |
| `TabNavigation.EnterThenLeave` | src/TabNavigation.jsx:96-97 | hovering a measured tab and leaving it hides the highlight, which keeps that tab's geometry |
| `TabNavigation.FrameAfterClickMisaligns` | src/TabNavigation.jsx:36-47 | a click on tab 1 before the first frame leaves the underline under tab 0 while tab 1 is active |
| `TabNavigation.ClickRealigns` | src/TabNavigation.jsx:25-34 | a click on a different, measured tab puts the underline under it whatever it was before; hovers, exits and clicks on the active tab leave the underline as it is |
| `TabNavigation.FrameKeepsAligned` | src/TabNavigation.jsx:36-47 | a frame that lands while tab 0 is active keeps the underline aligned |
| `TabNavigation.TabBar.constructor` | src/TabNavigation.jsx:6-9 | the component starts in the initial state, not yet mounted |
| `TabNavigation.TabBar.Mount` | src/TabNavigation.jsx:12-47 | the first commit applies the effects' first run and schedules the frame |
| `TabNavigation.TabBar.AnimationFrame` | src/TabNavigation.jsx:37-46 | the scheduled frame applies the tab-0 measurement once |
| `TabNavigation.TabBar.MouseEnter` | src/TabNavigation.jsx:96 | the new state is the entering transition of the old one |
| `TabNavigation.TabBar.MouseLeave` | src/TabNavigation.jsx:97 | the new state is the leaving transition of the old one |
| `TabNavigation.TabBar.Click` | src/TabNavigation.jsx:49-56 | the new state is the click transition, and the section scrolled to is the scroll target |
| `App.Capture` | src/App.jsx:103-109 | every captured field is free of outer whitespace, a trimmed form is captured as it is, and the interest stays one of the select's values |
| `App.InterestOptionsTrimmed` | src/App.jsx:417-430 | the placeholder and the four interest options trim to themselves |
| `App.CaptureIdempotent` | src/App.jsx:103-109 | capturing twice is capturing once |
| `App.ToTemplateParams` | src/App.jsx:115-122 | name and email go out as sender, company, interest and message keep their names, the destination is fixed, and every captured field can be read back |
| `App.RequestFor` | src/App.jsx:112-124 | the relay call uses the fixed service, template and public key, and its payload holds the trimmed form values |
| `App.OnBegin` | src/App.jsx:97-100 | beginning a submit puts the flags in flight: consistent, sending, not sent, no error |
| `App.OnSettle` | src/App.jsx:125-131 | settling ends the call in flight; sent holds exactly on success and an error exactly on failure |
| `App.Feedback` | src/App.jsx:456-470 | exactly one message is shown exactly when sent and an error do not hold together; for consistent flags it is thanks, the retry text, or the destination address |
| `App.NativeValid` | src/App.jsx:396-438 | no contract of its own: the `required` name, email and message controls are non-empty; it is the precondition of `AppComponent.BeginSubmit` and part of `SubmitAllowed` |
| `App.SubmitAllowed` | src/App.jsx:440-442 | no contract of its own: a press goes through exactly when nothing is in flight and `NativeValid` holds; `FormStep` and the ensures of `AppComponent.PressSubmit` use it |
| `App.FormStep` | src/App.jsx:96-133 | no contract of its own; `FormRun`, `NoSecondBegin` and `CallsSerialised` state what a step preserves |
| `App.FormRun` | src/App.jsx:96-133 | any run of submits and settlements keeps the flags consistent |
| `App.NoSecondBegin` | src/App.jsx:442 | a press while a call is in flight changes nothing |
| `App.CallsSerialised` | src/App.jsx:440-442 | over any run, calls in flight at the start plus calls begun equal calls settled plus the one still in flight, so at most one call is in flight |
| `App.SettleShowsOutcome` | src/App.jsx:456-470 | after success the line thanks the user; after failure it shows the retry message |
| `App.ContactForm.constructor` | src/App.jsx:396-438 | the form starts with empty inputs and the placeholder interest |
| `App.ContactForm.Reset` | src/App.jsx:127 | `reset()` restores every control to its default |
| `App.ContactForm.Input` | src/App.jsx:396-438 | typing sets the controls; the select only takes its own values |
| `App.AppComponent.constructor` | src/App.jsx:43-46 | not sending, not sent, no error, mobile menu closed, blank form |
| `App.AppComponent.BeginSubmit` | src/App.jsx:96-124 | the flags go in flight, the form is untouched, and the request carries the trimmed form values |
| `App.AppComponent.CompleteSubmit` | src/App.jsx:125-131 | the flags settle; success resets the form and failure keeps its values |
| `App.AppComponent.PressSubmit` | src/App.jsx:440-442 | the handler runs exactly when nothing is in flight and the native constraints hold; otherwise nothing changes |
| `App.AppComponent.ToggleMobileMenu` | src/App.jsx:224 | the toggle flips the menu and nothing else |
| `App.AppComponent.ChooseMobileLink` | src/App.jsx:263-265 | choosing a mobile link closes the menu and nothing else |

## Left out

- `JsString.LowerChar`: does not model case mapping outside ASCII, because the only labels it is applied to are ASCII.
- `JsString.IsWhiteSpace`: follows the current Unicode space separators; the set in older engines may differ.
- The indicator styles are strings such as `"92px"` in the source. The model keeps the integers, and nothing reads those strings back.
- All JSX markup, inline styles, colours, CSS media queries and `darkMode`: presentation only. The active colour is modelled only as active versus inactive.
- The relay library (`emailjs.send`, `emailjs.init`) is a foreign asynchronous call. Only its outcome is modelled, as the `success` input of `CompleteSubmit`.
- `console.error` on failure: logging only.
- Font-stylesheet injection and `document.title` (src/App.jsx:83-94): page-wide setup that is not part of either machine.
- `requestAnimationFrame` timing: the frame callback is one atomic event, not concurrency.
- Validation of the email format by the browser: only the `required` constraints are modelled.
- `App.NativeValid`: does not model the value sanitization of the `type="email"` control (src/App.jsx:403-406). The browser strips that control's leading and trailing ASCII whitespace, so an email made only of spaces is empty and fails `required`. The model lets such a blank email through, and `ContactForm.Input` lets the email control keep outer spaces.
- The logo and photo fallbacks and the logo URL choice: trivial UI fallbacks.
- The button's "Sending…"/"Send" caption: it follows `sending`, which the model already tracks.
- A relay call that never settles is allowed by the model: nothing forces `CompleteSubmit` to be called.
