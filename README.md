# Portfolio page script, modelled in Dafny

This project models the decision logic of `js/main.js`. That script is the
client-side layer of a static portfolio page. It does five things:

- keeps a light/dark theme in local storage and applies it to the page;
- opens and closes the mobile navigation menu;
- marks the navigation link of the section under the 150-pixel line as active while scrolling;
- reveals elements as they scroll into view;
- validates the contact form and submits it to a form relay.

The browser is replaced by plain state. Elements become fields: attribute
strings, booleans for class-list membership, `Option` for a storage slot that
may be empty. Geometry becomes integers. The network request becomes an
`Outcome` value handed to the model when the request settles.

Files, one module each:

- `wrappers.dfy` (`Wrappers`): `Option`.
- `text.dfy` (`Text`): JavaScript white space, `trim` and `includes`.
- `email.dfy` (`Email`): the e-mail regular expression as string predicates.
- `theme.dfy` (`Theme`): theme normalisation and toggling; class `ThemePage`.
- `nav.dfy` (`Nav`): the mobile menu; class `MobileNav`.
- `scroll.dfy` (`Scroll`): the active-link pass and the reveal pass, each a loop over an array of flags.
- `contact.dfy` (`Contact`): the validator and the submission controller; class `ContactForm`.

How some source constructs are modelled:

- The regular expression `^[^\s@]+@[^\s@]+\.[^\s@]+$` has two forms.
  - `Email.PatternMatches` reads the pattern off directly: an `@` and a later `.` split the string into three non-empty runs of `[^\s@]`.
  - `Email.IsEmail` computes the same test by finding the first `@`.
  - A lemma proves that the two agree. A second lemma proves both equal the plain description: no white space, exactly one `@` (not first), and a `.` strictly inside the part after it.
- `\s` and `trim` use the same character set in JavaScript: the WhiteSpace and LineTerminator code points. `Text.IsWhitespace` lists them by code point.
- The request is asynchronous. `ContactForm.HandleSubmit` runs up to the request. It records the button label the request captured in `inFlight`. `ContactForm.Settle(i, outcome)` runs the `.then`/`.catch`/`.finally` branches for request `i`, so other events can interleave between the two.
- `ContactForm.ButtonGuard` is the invariant of the submission controller: when the form has a button, the button is disabled exactly while one request is in flight. `HandleSubmit` requires the button (if any) to be enabled, because a browser does not submit a form through its disabled default button.
- Three behaviours of the code are worth noting:
  - The colour-scheme hint is assigned the stored string itself, not the normalised theme (`Theme.HintMatchesAttribute`).
  - Every link whose `href` equals `#id` becomes active, so several links can be active at once.
  - The placeholder guard tests the endpoint given as a parameter. The shipped endpoint does not contain the token (`Contact.ShippedEndpointConfigured`), so with it the guard never fires.

## Model

| member | source | states |
|---|---|---|
| `Text.TrimStartSpec` | js/main.js:132 | the front part that trimming drops is all white space; what remains is a suffix that does not start with white space |
| `Text.TrimEndSpec` | js/main.js:132 | the back part that trimming drops is all white space; what remains is a prefix that does not end with white space |
| `Text.TrimSpec` | js/main.js:132 | `trim()` returns an infix of the value with only white space around it, neither starting nor ending with white space |
| `Text.BlankIffAllWhitespace` | js/main.js:132 | `!value.trim()` holds exactly when every character of the value is white space |
| `Text.Contains` | js/main.js:179 | `includes` is true exactly when the token occurs at some position of the endpoint |
| `Email.IsEmailIffPattern` | js/main.js:119 | the computed e-mail test accepts exactly the strings matched by `^[^\s@]+@[^\s@]+\.[^\s@]+$` |
| `Email.IsEmailSound` | js/main.js:119 | every string the computed e-mail test accepts is matched by the pattern |
| `Email.IsEmailComplete` | js/main.js:119 | every string the pattern matches passes the computed e-mail test |
| `Email.PatternIffShape` | js/main.js:119 | the pattern matches exactly the strings with no white space, exactly one `@` not at the front, and a `.` that is neither first nor last after the `@` |
| `Email.EmailIsNotBlank` | js/main.js:141-145 | a value the pattern accepts is never blank after trimming |
| `Email.ShortAddressAccepted` | js/main.js:119 | `a@b.c` is accepted |
| `Email.MalformedAddressesRejected` | js/main.js:119 | `a@b`, `a@.c`, `a` and the empty string are rejected |
| `Email.LeadingSpaceRejected` | js/main.js:141-146 | because the pattern is tested on the untrimmed value, ` a@b.c` is not blank but is rejected as malformed |
| `Theme.StoredOrDefault` | js/main.js:18-19 | a missing or empty stored value falls back to `dark`; any other stored string is kept |
| `Theme.AppliedTheme` | js/main.js:18-20 | start-up applies `light` exactly when storage holds `light`, and `dark` otherwise, nothing stored included |
| `Theme.NextTheme` | js/main.js:25-26 | a toggle chooses `dark` exactly when the current attribute is `light`, and `light` otherwise |
| `Theme.ToggleTwiceRestores` | js/main.js:24-30 | two toggles from `light` or `dark` return to it |
| `Theme.ToggleSurvivesReload` | js/main.js:16-30 | start-up after a toggle applies the theme the toggle stored |
| `Theme.HintMatchesAttribute` | js/main.js:19-21 | the string assigned as the colour-scheme hint equals the applied theme exactly when storage holds nothing, the empty string, `light` or `dark` |
| `Theme.ThemePage.InitTheme` | js/main.js:16-22 | storage is only read; the attribute becomes the normalised theme; the hint is assigned the stored string or `dark` |
| `Theme.ThemePage.ToggleTheme` | js/main.js:24-30 | the attribute and hint become the next theme, and storage holds the same value |
| `Theme.ToggleThenReload` | js/main.js:16-30 | toggling, then starting up again, leaves the attribute at the toggled theme |
| `Nav.MobileNav.CloseMobileNav` | js/main.js:43-49 | with the controls present, the menu ends closed (`aria-expanded="false"`, no `open` class, overflow cleared) whatever it was before, so a second call changes nothing; without them nothing changes |
| `Nav.MobileNav.OnToggleClick` | js/main.js:52-57 | `aria-expanded` flips, `open` toggles, and the scroll lock is `hidden` exactly when the menu has just opened; a consistent state stays consistent |
| `Nav.MobileNav.OnResize` | js/main.js:63-65 | a width above 768 closes the menu; a width of 768 or less changes nothing |
| `Nav.OpenThenWiden` | js/main.js:52-65 | opening the menu, then resizing to 1024, leaves it closed with scrolling unlocked |
| `Nav.ToggleTwice` | js/main.js:52-57 | two toggle clicks from a consistent state restore all three pieces of state |
| `Scroll.LastCurrent` | js/main.js:74-80 | names the last section with an id whose box spans the 150-pixel line, or reports that there is none |
| `Scroll.UpdateActiveNav` | js/main.js:71-91 | if some section is current, afterwards exactly the links whose href is `#` plus the last current section's id are active; otherwise no flag changes |
| `Scroll.RevealTwice` | js/main.js:106-110 | two passes over the same geometry leave what one pass leaves: all revealed under reduced motion, otherwise revealed exactly when already revealed or above the line |
| `Scroll.Reveal` | js/main.js:100-112 | no element loses `revealed`; under reduced motion all are revealed; otherwise an element ends revealed exactly when it already was or its top is above `innerHeight - 80` |
| `Contact.RequiredError` | js/main.js:132-139 | a required field's error text is empty exactly when the value is not blank, and is the field's message otherwise |
| `Contact.EmailError` | js/main.js:141-152 | the e-mail error is cleared exactly when the pattern accepts the value; a blank value gets "Email is required", and a non-blank value that fails the pattern gets "Please enter a valid email" |
| `Contact.ValidIffNoErrors` | js/main.js:130-163 | the form is valid exactly when all three error texts are cleared |
| `Contact.BlankFieldFails` | js/main.js:130-163 | any blank field makes the form invalid and gets its non-empty "required" message |
| `Contact.ShippedEndpointConfigured` | js/main.js:120 | the shipped endpoint does not contain `YOUR_FORM_ID` |
| `Contact.ContactForm.ShowFormStatus` | js/main.js:166-173 | the status slot, if present, shows the text with its error or success class; otherwise nothing changes |
| `Contact.ContactForm.ValidateForm` | js/main.js:122-164 | each field's error text and error class are set from its own check; the result is true exactly when the form is valid, which is exactly when no error text is left |
| `Contact.ContactForm.HandleSubmit` | js/main.js:175-195 | an invalid form stops with errors shown; a placeholder endpoint shows the configuration error and stops; otherwise the button is disabled and labelled `Sending...` and one request carrying the old label is in flight; field values never change |
| `Contact.ContactForm.Settle` | js/main.js:199-215 | success (status 200-299) resets the fields, clears all errors and shows the thanks message; an HTTP error or network failure shows the failure message and keeps the fields; either way the button is re-enabled under the label captured at send time |
| `Contact.SubmitToShippedEndpoint` | js/main.js:175-216 | a valid form sent to the shipped endpoint ends with the button enabled under its original label and nothing in flight, cleared on success and intact with the failure message otherwise |

## Left out

- The request itself is not modelled: `fetch`, its promise, the `FormData` collection and the JSON body (js/main.js:192-199) are network I/O. Only the settled result enters the model, as `Contact.Outcome`.
- Browser plumbing is not modelled: `localStorage` as storage, `querySelector` look-ups, listener registration, `preventDefault` on submit, and the `DOMContentLoaded` start-up. The model's state stands for what those calls read and write.
- The year display (js/main.js:225) reads the clock and is not modelled.
- The Space-key handler on the theme toggle (js/main.js:35-39) only suppresses the browser default and is not modelled.
- The `if (!body) return` guard of `initTheme` is not modelled. The model assumes the page has a body, as `toggleTheme` also does.
- Geometry (`getBoundingClientRect`, `innerHeight`, `innerWidth`) is in whole pixels instead of floating point. `window.matchMedia` is a boolean input.
- Strings are sequences of Unicode scalar values, not UTF-16 code units. Matching is unaffected, because `@`, `.` and every white-space character are single code units.
- `Contact.ContactForm.Settle`: resetting the form sets each field to the empty string, taking the fields' default values to be empty. The page markup is not part of this model.
- `Contact.ContactForm.Settle`: clearing "all" error texts and error classes covers only the form's three fields and their three slots. Other elements carrying those classes are not modelled.
- `Theme.ThemePage.InitTheme`, `Theme.ThemePage.ToggleTheme` and `Theme.HintMatchesAttribute`: the colour-scheme field is the string the script assigns to `style.colorScheme`. The browser's parsing and read-back of that CSS property are not modelled. An invalid value such as `1` is ignored by the browser, and `Dark` reads back as `dark`.
- The `role="alert"` attribute set on the status slot is not modelled.
