# Portfolio page interactions, modelled in Dafny

This project models the deterministic page-state logic of a portfolio page's
browser script (`script.js`). The DOM becomes plain values: CSS classes that
the script adds and removes become boolean flags, sections become records
`(offsetTop, offsetHeight, id)`, and nav links become their `href` attributes.
Four handlers are covered:

- **Scroll tracker** (`handleScroll`). It finds the id of the last section
  whose interval `[offsetTop - 150, offsetTop - 150 + offsetHeight)` contains
  the scroll offset. It clears every nav link's `active` flag, then sets it
  again on each link whose `href` includes that id as a substring. The header
  is sticky iff the offset is above 100. The mobile menu is force-closed.
- **Menu toggle.** A click flips `bx-x` on the icon and `active` on the navbar.
- **Theme toggle.** A click flips `bx-sun` on the icon and `dark-mode` on the body.
- **Contact-form outcome.** How the request ended decides three things: the
  status text, its colour (green or red), and whether the form is reset.
  Exactly one status paragraph is appended.

Files:

- `wrappers.dfy` holds `Option`.
- `text.dfy` (module `Text`) holds `Includes` and `Join`. `Includes` models
  `String.prototype.includes`. `Join` models `Array.prototype.join`.
- `page.dfy` (module `PageInteractions`) holds the page state as a value
  (`PageState`), the handlers as functions on it, the lemmas, and the
  `Page` class. The class's methods run the handlers' loops and are proved
  equal to those functions.
- `contact_form.dfy` (module `ContactForm`) holds the outcome decision and a
  `Form` class that receives the status paragraphs.

The model follows the code as written, including these less obvious behaviours:

- The script scans every `section` element, including those without an `id`.
  A matching section with no `id` stores `null` as the current id. `includes`
  then looks for the text `"null"` (`IdText`).
- A nav link with no `href` makes `null.includes(...)` throw. The scroll
  handler then stops at that link, after it has cleared the link's flag. The
  later links, the header and the menu are left as they were
  (`FirstMissingHref`, `ScrollCompletes`, `ScrollStopsAtLinkWithoutHref`).
- The menu handler is registered when the icon exists, even if the navbar
  does not. In that case a click flips the icon, and then `navbar.classList`
  throws, so only the icon changes (`MenuClick`).
- `join` writes a missing `message` as the empty string (`Rendered`). Any
  other value is written as its string conversion: a number 5 as "5", an
  object as "[object Object]". An `ErrorEntry` holds that converted text.
- An empty `errors` list gives an empty red status, not the generic text
  (`EmptyErrorListShowsEmptyText`).
- Several cases make the code throw inside its `try`, so they end in the
  generic failure message: a body that is not JSON, a `null` body, an
  `errors` value that is not an array, and a `null` entry. All of them are
  the `Thrown` case.

## Model

| member | source | states |
|---|---|---|
| `Text.Includes` | script.js:45 | the result is true exactly when the searched text occurs at some index of the string |
| `Text.IncludesEmpty` | script.js:45 | every string includes the empty string |
| `Text.IncludesInfix` | script.js:45 | a string includes each of its infixes |
| `Text.JoinCons` | script.js:123 | the left-to-right join equals the first part, the separator, then the rest joined |
| `Text.JoinAppend` | script.js:123 | joining two non-empty lists puts exactly one separator between their joins |
| `Text.JoinLength` | script.js:123 | a join's length is the parts' total length plus one separator per gap |
| `Text.JoinIncludesEachPart` | script.js:123 | every part occurs in the joined string |
| `PageInteractions.NoMatchGivesEmptyId` | script.js:31-40 | when no section's biased interval contains the offset, the current id stays "" |
| `PageInteractions.LastMatchWins` | script.js:31-40 | when section k contains the offset and no later one does, the current id is section k's id, whatever earlier sections match |
| `PageInteractions.FirstMissingHref` | script.js:42-48 | the index of the first link without `href`, or the number of links: all earlier links have one, and that link does not |
| `PageInteractions.LinkActiveIffHrefIncludesSectionId` | script.js:31-48 | after a completed scroll, a link is active iff its `href` includes the id of the last section containing the offset |
| `PageInteractions.NoSectionActivatesEveryLink` | script.js:31-48 | after a completed scroll in which no section contains the offset, every link is active |
| `PageInteractions.StickyIffPastThreshold` | script.js:51-53 | after a completed scroll on a page with a header, the header is sticky iff the offset is above 100, whatever its prior state |
| `PageInteractions.ScrollClosesMenu` | script.js:56-59 | after a completed scroll on a page with icon and navbar, neither `bx-x` nor navbar `active` is set, whatever the prior state |
| `PageInteractions.ScrollStopsAtLinkWithoutHref` | script.js:42-48 | a scroll that throws at a link without `href` clears that link's flag and leaves later links, header and menu unchanged |
| `PageInteractions.ScrollKeepsTheme` | script.js:27-60 | a scroll leaves the theme flags and the number of links unchanged |
| `PageInteractions.ScrollIdempotent` | script.js:27-60 | two scrolls to the same offset give the same state as one |
| `PageInteractions.ScrollForgetsPriorState` | script.js:27-60 | on a page with every element and every `href`, two states that agree on the theme are equal after the same scroll |
| `PageInteractions.ScrollIgnoresMenuClick` | script.js:56-59 | a menu click before a completed scroll on a page with a navbar makes no difference to the state after it |
| `PageInteractions.MenuClickFlipsBoth` | script.js:15-18 | with icon and navbar, a click inverts `bx-x` and navbar `active` and changes nothing else |
| `PageInteractions.MenuClickTwiceIsIdentity` | script.js:15-18 | two menu clicks restore the original state |
| `PageInteractions.MenuClickKeepsFlagsInStep` | script.js:15-18 | with a navbar, icon and navbar flags that agree before a click agree after it |
| `PageInteractions.ThemeClickFlipsBoth` | script.js:69-72 | with the theme icon, a click inverts `bx-sun` and body `dark-mode` and changes nothing else |
| `PageInteractions.ThemeClickTwiceIsIdentity` | script.js:69-72 | two theme clicks restore the original state |
| `PageInteractions.Page.OnScroll` | script.js:27-60 | the page's new flags are `Scroll` of the old ones: the section loop computes `CurrentSectionId`, the link loop computes `LinkFlags`, header and menu follow only when the loop completes; `completed` tells whether it threw |
| `PageInteractions.Page.OnMenuClick` | script.js:14-19 | the page's new flags are `MenuClick` of the old ones |
| `PageInteractions.Page.OnThemeClick` | script.js:68-73 | the page's new flags are `ThemeClick` of the old ones |
| `ContactForm.Messages` | script.js:123 | one rendered message per error entry, in order, a missing message as "" |
| `ContactForm.Outcome` | script.js:116-131 | reset iff ok; green iff ok; ok shows the thanks text; a rejection with `errors` shows the messages joined by ", "; a rejection without `errors`, or a thrown error, shows the generic failure text |
| `ContactForm.SingleErrorShownVerbatim` | script.js:123-127 | a rejection with one error shows exactly its message, in red, without reset |
| `ContactForm.EveryErrorMessageShown` | script.js:123 | every message of the `errors` list occurs in the status text |
| `ContactForm.MessagesAppend` | script.js:123 | mapping error entries to messages distributes over concatenation |
| `ContactForm.ErrorMessagesSeparated` | script.js:123 | the status for two concatenated error lists is their two statuses joined by one ", " |
| `ContactForm.EmptyErrorListShowsEmptyText` | script.js:122-127 | an empty `errors` list gives an empty red status without reset |
| `ContactForm.GreenIffReset` | script.js:116-131 | the form is reset exactly when the status is green; the thanks text on a failure can only come from the endpoint's own messages |
| `ContactForm.Form.Submit` | script.js:116-134 | exactly one status paragraph, the `Outcome`, is appended; fields return to their defaults only on success; the form keeps one value per field |

## Left out

- DOM querying, the `DOMContentLoaded` wrapper, listener registration and `preventDefault`, which stops the browser's own form submission and page reload (script.js:8, 11-12, 23-25, 62, 96, 99, 142-144), are host wiring. Element presence is the `Elements` record instead.
- The ScrollReveal configuration and `reveal` calls (script.js:77-86) only configure an external animation library. They have no state of the script's own.
- `fetch`, `FormData`, the request headers and `response.json()` (script.js:105-114, 121) are network I/O and a foreign parser. The request's end is the `Response` value passed to `Form.Submit`.
- Removing the status paragraph after 5000 ms (script.js:136-138) is timer work on the event loop. So is the overlap of paragraphs between submissions. `Form.statusNodes` only ever grows.
- The `marginTop` style, the exact colour strings and `innerHTML` rendering are presentation. Colour is modelled as green or red only.
- `window.scrollY` can be fractional, and layout values are whatever the browser reports. Offsets and sizes are modelled as integers.
- The exception that a failed handler raises into the browser is not modelled. Only its effect on the page state is: `OnScroll` reports it as `completed == false`.
