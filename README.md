# Portfolio site logic, modelled in Dafny

This project models the pieces of logic behind a personal portfolio site:

- three API routes:
  - job match: fetch a job posting, reduce its HTML to text, ask a language model, clean its reply;
  - chat: build a prompt from the last message, stream the reply as server-sent events;
  - contact: validate the form, then send a notification email and a confirmation email;
- the client components that call these routes: the contact form and the job-match analyzer;
- the page's navigation rules;
- the theme provider and the theme toggle;
- the mobile menu;
- the GitHub statistics panel;
- the text-reveal markup of the animation helpers.

Each source file is one module. Three shared modules hold what several files rely on:

- `JsText`: the JavaScript string operations (`\s`, `trim`, `indexOf`, `includes`, number to text) and the kinds of values a `catch` block can receive.
- `JsonString`: `JSON.stringify` of a string, with its decoder.
- `EventStream`: how a client reads a `text/event-stream` body, after section 9.2.6 of the WHATWG HTML Living Standard.

`Dom` holds the browser state the components write to: the root element's classes, `localStorage`, and the body's `overflow` style.

Code that changes state step by step is written as classes with methods. This covers the stream controller, the form, the analyzer, the page, the theme toggle, the menu, the statistics panel and the animated element. Each method's `ensures` gives the new state as a function of the old one; the one field left open is named under "## Left out". String transforms, email records and lookups are written as functions, and lemmas relate them to independent definitions.

Calls to outside services are outcomes passed in as parameters: the posting fetch, the language model, the mail service, the GitHub API and `fetch` on the client. `JSON.parse` is a parameter as well. A missing or falsy string field is written `""`.

## Model

| member | source | states |
|---|---|---|
| `JsText.Trim` | app/api/job-match/route.ts:56 | the result is a slice of the input with only whitespace cut at both ends, and it has no whitespace at either end |
| `JsText.TrimKeepsContent` | app/api/job-match/route.ts:56 | trimming removes nothing but whitespace |
| `JsText.TrimPadded` | app/api/job-match/route.ts:116 | an unpadded text followed by whitespace trims back to itself |
| `JsText.NatToString` | components/contact-form.tsx:93 | the status in `Server error: ${status}` is the shortest decimal numeral of the number: digits only, the right value, no leading zero |
| `JobMatchRoute.FindCI` | app/api/job-match/route.ts:52-53 | the first position at or after `from` where the pattern starts, letters compared without case; none is skipped |
| `JobMatchRoute.StripBlocksDeletesBlock` | app/api/job-match/route.ts:52-53 | a `<script…>…</script>` or `<style…>…</style>` block, in any letter case and ending at the first closing tag, is deleted with its contents. The text before it is kept whatever other tags it holds, provided no `<script` (or `<style`, in any case) starts in it |
| `JobMatchRoute.StripBlocksAtBlock` | app/api/job-match/route.ts:52-53 | a block at the scan position is dropped whole |
| `JobMatchRoute.BlockLengthOfBlock` | app/api/job-match/route.ts:52-53 | the block pattern matched at a block's start ends exactly at the block's first closing tag |
| `JobMatchRoute.StripBlocksPlain` | app/api/job-match/route.ts:52-53 | text without `<` passes the block removal unchanged |
| `JobMatchRoute.StripTagsLeavesNoTag` | app/api/job-match/route.ts:54 | after the tag pass, no `<[^>]+>` match is left |
| `JobMatchRoute.StripTagsReplacesTag` | app/api/job-match/route.ts:54 | each tag `<…>` (at least one character inside) becomes exactly one space, and the text before it is kept |
| `JobMatchRoute.CollapseSpaces` | app/api/job-match/route.ts:55 | whitespace becomes plain spaces, no two are adjacent, the first character keeps its kind, and the non-whitespace characters are exactly those of the input |
| `JobMatchRoute.CollapseSpacesRun` | app/api/job-match/route.ts:55 | each whole run of whitespace, wherever it stands, becomes exactly one space between the collapsed text before it and the collapsed text after it |
| `JobMatchRoute.CollapseSpacesAppend` | app/api/job-match/route.ts:55 | a text split right after a non-whitespace character collapses as its two parts collapsed one after the other, since no run of whitespace is cut |
| `JobMatchRoute.CollapseSpacesPlain` | app/api/job-match/route.ts:55 | text without whitespace is unchanged |
| `JobMatchRoute.CollapseKeepsNoTag` | app/api/job-match/route.ts:55 | collapsing whitespace creates no tag |
| `JobMatchRoute.TrimCollapsedFacts` | app/api/job-match/route.ts:55-56 | trimming collapsed tag-free text keeps it single-spaced, tag-free and with the same non-whitespace characters |
| `JobMatchRoute.PageText` | app/api/job-match/route.ts:51-56 | the page text has no surrounding whitespace, single spaces only, no tag, and the same non-whitespace characters as the tag-stripped HTML |
| `JobMatchRoute.ExtractText` | app/api/job-match/route.ts:51-57 | the job text is a prefix of the page text of at most 5000 characters. It is the whole page text when that fits and exactly 5000 characters otherwise. It has no leading whitespace, no two adjacent whitespace characters and no tag |
| `JobMatchRoute.CleanReply` | app/api/job-match/route.ts:116 | the cleaned reply never starts or ends with whitespace |
| `JobMatchRoute.FencedReplyUnwrapped` | app/api/job-match/route.ts:116 | a reply ```` ```json\nJ\n``` ```` becomes exactly `J` when `J` has no backtick and no surrounding whitespace |
| `JobMatchRoute.PlainReplyKept` | app/api/job-match/route.ts:116 | a reply without backticks or surrounding whitespace is unchanged |
| `JobMatchRoute.FirstPassUnfences` | app/api/job-match/route.ts:116 | the `` ```json\n? `` pass removes the opening fence and its newline only |
| `JobMatchRoute.SecondPassUnfences` | app/api/job-match/route.ts:116 | the `` ```\n? `` pass removes the closing fence |
| `JobMatchRoute.Prompt` | app/api/job-match/route.ts:68-105 | the prompt is the fixed wording before the job text, the job text unchanged, then the fixed wording after it |
| `JobMatchRoute.Post` | app/api/job-match/route.ts:31-135 | The guard, the source choice and each error path. With both fields empty: 400 and nothing fetched or sent. A non-empty description is used verbatim and nothing is fetched. A URL alone is fetched: if the fetch throws, 400; otherwise the extracted text goes into the prompt. If the model throws: 500. A reply that does not parse: 500 'Failed to analyze…'. A parsed reply: 200 with the analysis. A body that is not JSON: 500 |
| `JsonString.Escape` | app/api/chat/route.ts:50 | the escaped text holds no character below U+0020, so no CR or LF |
| `JsonString.UnescapeEscape` | app/api/chat/route.ts:50 | decoding a JSON string literal undoes `JSON.stringify` |
| `JsonString.ContentObject` | app/api/chat/route.ts:50 | `JSON.stringify({content: text})` holds no CR or LF |
| `JsonString.ContentRoundTrip` | app/api/chat/route.ts:50 | reading `content` back from the object gives the text |
| `EventStream.LineBreak` | app/api/chat/route.ts:50 | the first CR or LF of the stream, with none before it |
| `EventStream.FrameLines` | app/api/chat/route.ts:50 | a `data: …\n\n` frame whose payload has no line break is read as exactly two lines |
| `EventStream.FrameDispatch` | app/api/chat/route.ts:50 | those two lines dispatch one event carrying the payload |
| `EventStream.EventsOfFrames` | app/api/chat/route.ts:48-51 | frames read back to back give one event per frame, in order, each with its payload |
| `ChatRoute.BuildPrompt` | app/api/chat/route.ts:39-40 | the prompt is the system prompt, `\n\nUser: `, the last message's content (`undefined` when missing), then `\n\nAssistant:` |
| `ChatRoute.PromptOf` | app/api/chat/route.ts:39-40 | a conversation has a prompt exactly when it is non-empty, and it is built from the last message |
| `ChatRoute.OnlyLastTurnCounts` | app/api/chat/route.ts:39-40 | earlier turns never reach the model: a conversation prompts like its last message alone, and any two conversations ending in the same message prompt alike |
| `ChatRoute.Ending` | app/api/chat/route.ts:47-53 | a stream whose `start` ran to the end is closed; one whose loop threw is errored with what was thrown, and never closed |
| `ChatRoute.StreamController.constructor` | app/api/chat/route.ts:46 | a new stream is empty and open |
| `ChatRoute.StreamController.Enqueue` | app/api/chat/route.ts:50 | enqueuing appends one chunk to an open stream |
| `ChatRoute.StreamController.Close` | app/api/chat/route.ts:52 | closing an open stream keeps what was enqueued |
| `ChatRoute.StreamController.Error` | app/api/chat/route.ts:47-53 | a rejected `start` errors the open stream instead of closing it |
| `ChatRoute.Start` | app/api/chat/route.ts:47-53 | one frame per chunk the model delivered is enqueued, in chunk order. Then the stream is closed, or errored when reading the model's stream threw |
| `ChatRoute.Post` | app/api/chat/route.ts:35-69 | A body that is not JSON, or an empty message list, gives 500 'Failed to process chat request' and no prompt. Otherwise the prompt is built from the last message. A model call that throws gives the same 500. A streaming model gives the event-stream headers and one frame per delivered chunk. A failure while streaming errors the stream and is never turned into a 500 |
| `ChatRoute.ConcatFramesOf` | app/api/chat/route.ts:48-51 | the body is the data frames of the chunks' JSON objects |
| `ChatRoute.ClientReceivesEachChunk` | app/api/chat/route.ts:48-51 | a client reading the body gets exactly one event per chunk, in order, and each event's `content` decodes to the chunk's text |
| `ContactRoute.ReplaceFirstHyphen` | app/api/contact/route.ts:87 | only the first hyphen becomes a space; the length is kept |
| `ContactRoute.ReplaceKeepsLaterHyphens` | app/api/contact/route.ts:87 | every hyphen after the first is kept |
| `ContactRoute.Notification` | app/api/contact/route.ts:25-56 | the notification goes from the site address to the owner's address, with subject 'New Contact Form Submission: ' + subject. Its details are exactly Name, Email, Company (only when a company was given), Inquiry Type, Subject and Message, in that order, each with the submitted value |
| `ContactRoute.Confirmation` | app/api/contact/route.ts:63-110 | the confirmation goes to the submitter's address only, with subject 'Thank you for reaching out!'. It greets the submitter by name, repeats the subject, and names the inquiry type with its first hyphen replaced |
| `ContactRoute.Details` | app/api/contact/route.ts:124 | `details` is the error's message, or 'Unknown error' for a thrown non-Error |
| `ContactRoute.Post` | app/api/contact/route.ts:6-129 | A missing required field gives 400 and no email. Otherwise the notification is sent first and the confirmation second. Success comes only after both, and carries both ids. A throw at any step gives 500 'Failed to send email' with its details, and no later email |
| `ContactRoute.MissingFieldIff` | app/api/contact/route.ts:17-20 | the response is 400 exactly when a required field is missing, and then nothing is sent |
| `ContactRoute.NotificationFirst` | app/api/contact/route.ts:25-66 | when both emails go out, the first is to the owner and the second to the submitter |
| `ContactForm.With` | components/contact-form.tsx:28-30 | setting one field leaves the other five unchanged |
| `ContactForm.RegexMatchIsShape` | components/contact-form.tsx:44-45 | every string the email regex accepts has the stated shape |
| `ContactForm.ShapeIsRegexMatch` | components/contact-form.tsx:44-45 | every string with the stated shape is accepted by the regex |
| `ContactForm.EmailShapeIff` | components/contact-form.tsx:44-45 | the regex accepts exactly the strings with one `@` that is not first, no whitespace, and a dot in the domain that is neither its first nor its last character |
| `ContactForm.Validate` | components/contact-form.tsx:37-49 | the required fields are checked first and the email shape only after them; each failure has its own message |
| `ContactForm.CompanyOptional` | components/contact-form.tsx:37 | the company field never affects validation |
| `ContactForm.CaughtMessage` | components/contact-form.tsx:95-105 | a TypeError mentioning 'fetch' gives the network message, any other Error its own message, and anything else the generic message |
| `ContactForm.Settle` | components/contact-form.tsx:69-105 | An OK response gives success whenever its body could be read, even a non-JSON body. A non-OK JSON body gives its `error`, or 'Server error: ' + status. A non-OK non-JSON body gives 'Server returned an unexpected response format'. A throw from `fetch`, or from reading a JSON body, gives the message of the catch block |
| `ContactForm.ContactFormState.constructor` | components/contact-form.tsx:16-26 | all fields are empty, the form is idle and not submitting, and there is no message |
| `ContactForm.ContactFormState.HandleInputChange` | components/contact-form.tsx:28-30 | only the chosen field changes |
| `ContactForm.ContactFormState.HandleSubmit` | components/contact-form.tsx:32-109 | A form that fails validation shows the error and sends nothing; its data and the submitting flag stay as they were. Otherwise the data is posted once and the outcome sets the status and message. Success resets all six fields, and the form is not submitting afterwards |
| `ContactForm.ContactFormState.SendAnother` | components/contact-form.tsx:141 | the success view's button returns the form to idle |
| `ContactForm.ClientCheckImpliesServerCheck` | app/api/contact/route.ts:17-20 | a form the client lets through is never refused by the server for missing fields |
| `Page.FirstHit` | app/page.tsx:74-86 | the first id, in list order, whose element exists and whose half-open box contains the position |
| `Page.EndIsExclusive` | app/page.tsx:78-81 | the position `offsetTop + offsetHeight` does not select a section |
| `Page.Portfolio.constructor` | app/page.tsx:41 | the active section starts as 'home' |
| `Page.Portfolio.HandleScroll` | app/page.tsx:57-87 | the first listed section containing `scrollY + 100` becomes active; when none does, the active section is unchanged |
| `Page.FirstHitIsFirst` | app/page.tsx:74-86 | the section where the loop breaks is the first hit |
| `Page.FirstHitNone` | app/page.tsx:74-86 | a loop that finds nothing means that no section is hit |
| `Page.Portfolio.ScrollToSection` | app/page.tsx:157-166 | `#id` is pushed to the history, and the section scrolled to, only when the element exists |
| `Page.KeyTarget` | app/page.tsx:90-107 | h/H lead to home and c/C to contact, except inside INPUT or TEXTAREA; other keys lead nowhere |
| `Page.Portfolio.HandleKeyPress` | app/page.tsx:90-107 | a shortcut whose section exists pushes `#id` and scrolls to it; any other key press changes nothing |
| `Page.Highlights` | app/page.tsx:195-199 | a nav button is highlighted exactly when its id is the active section |
| `Page.OneHighlight` | app/page.tsx:183-199 | with distinct ids, exactly one button is highlighted for a listed section and none for an unlisted one |
| `Page.NavHighlight` | app/page.tsx:58-71 | the nav ids are distinct, and 'freelance' is a scroll section without a nav button |
| `Page.ShownBadges` | app/page.tsx:547 | the first min(4, n) technologies are shown, in order |
| `Page.Overflow` | app/page.tsx:556-558 | the '+k more' badge appears exactly when there are more than four |
| `Page.BadgesAccountForAll` | app/page.tsx:547-558 | shown badges plus the overflow count equal the number of technologies |
| `Page.RevealDelay` | app/page.tsx:150 | every reveal delay is at least 100 ms |
| `Page.RevealAll` | app/page.tsx:146-153 | exactly the mounted refs are revealed, each with delay 100 + 50·index, in increasing order of index and delay |
| `JobMatchAnalyzer.RequestBody` | components/job-match-analyzer.tsx:56-59 | the URL tab posts only the URL and the text tab only the description |
| `JobMatchAnalyzer.NeverBoth` | components/job-match-analyzer.tsx:56-59 | the body never carries both fields |
| `JobMatchAnalyzer.UrlTabDropsDescription` | components/job-match-analyzer.tsx:44-59 | with the URL tab active and only a description typed, the guard passes but the posted body has both fields empty, which the server refuses with 400 |
| `JobMatchAnalyzer.Settle` | components/job-match-analyzer.tsx:62-72 | A success toast appears exactly when an analysis came back. A non-OK reply shows the body's `error`, or 'Failed to analyze job'. A throw shows its message, or the same fallback |
| `JobMatchAnalyzer.Analyzer.constructor` | components/job-match-analyzer.tsx:37-41 | empty inputs, not analyzing, no result, URL tab |
| `JobMatchAnalyzer.Analyzer.SetJobUrl` | components/job-match-analyzer.tsx:122 | typing in the URL input changes only the URL |
| `JobMatchAnalyzer.Analyzer.SetJobDescription` | components/job-match-analyzer.tsx:138 | typing in the description input changes only the description |
| `JobMatchAnalyzer.Analyzer.SetInputMethod` | components/job-match-analyzer.tsx:104 | switching tabs keeps both inputs |
| `JobMatchAnalyzer.Analyzer.AnalyzeDisabled` | components/job-match-analyzer.tsx:151 | an enabled button means some input is filled and no analysis is running; with both inputs empty the button is disabled |
| `JobMatchAnalyzer.Analyzer.AnalyzeJob` | components/job-match-analyzer.tsx:43-76 | A click on an enabled button always posts the active tab's body. With both inputs empty: an error toast only, with no request and no state change. Otherwise the active tab's body is posted once and the old result is cleared. The result is the analysis only when one came back. The panel always ends not analyzing |
| `JobMatchAnalyzer.ScoreBand` | components/job-match-analyzer.tsx:78-82 | scores of 80 or more are green, 60 up to 80 yellow, below 60 red |
| `JobMatchAnalyzer.ScoreBandMonotone` | components/job-match-analyzer.tsx:78-82 | a higher score never gets a worse band |
| `JobMatchAnalyzer.ScoreColor` | components/job-match-analyzer.tsx:78-82 | each band has its own colour classes |
| `JobMatchAnalyzer.RecommendationColor` | components/job-match-analyzer.tsx:84-89 | 'Strong Yes' is green, 'Yes' blue, 'Maybe' yellow, anything else red |
| `ThemeProvider.ShouldBeDark` | components/theme-provider.tsx:15 | A stored 'dark' forces dark. Any other non-empty stored value forces light. An absent or empty value follows the system preference |
| `ThemeProvider.EmptyIsUnset` | components/theme-toggle.tsx:15 | an empty stored value counts as no stored value |
| `ThemeProvider.ApplySavedTheme` | components/theme-provider.tsx:10-22 | the root has class 'dark' exactly when the decision is dark; no other class and nothing stored changes |
| `ThemeToggle.Toggled` | components/theme-toggle.tsx:27-41 | A press flips the flag and adds the transition class. 'dark' follows the new flag, and the storage names the new theme. No other class or stored key changes |
| `ThemeToggle.ToggleTwice` | components/theme-toggle.tsx:27-41 | two presses restore the flag and the 'dark' class, and leave the storage naming the original theme |
| `ThemeToggle.ToggleSurvivesReload` | components/theme-toggle.tsx:12-15 | after a press, the next load decides the theme from the stored value alone, whatever the system prefers |
| `ThemeToggle.Toggle.constructor` | components/theme-toggle.tsx:8 | the button starts light |
| `ThemeToggle.Toggle.Mount` | components/theme-toggle.tsx:10-25 | after mount, the flag is the load-time decision and the root has 'dark' exactly when the flag is set |
| `ThemeToggle.Toggle.ToggleTheme` | components/theme-toggle.tsx:27-41 | one press moves the button, the root classes and the storage as `Toggled` says |
| `MobileMenu.OverflowFor` | components/mobile-menu.tsx:38-44 | the body is 'hidden' exactly when the menu is open, '' otherwise |
| `MobileMenu.Menu.constructor` | components/mobile-menu.tsx:14 | the menu starts closed, with the body unlocked |
| `MobileMenu.Menu.SetOpen` | components/mobile-menu.tsx:38-49 | after each change of state the body lock matches the state |
| `MobileMenu.Menu.ToggleOpen` | components/mobile-menu.tsx:59 | the menu button flips the state |
| `MobileMenu.Menu.Close` | components/mobile-menu.tsx:75 | the backdrop and the close button (line 93) always leave the menu closed |
| `MobileMenu.Menu.HandleNavigate` | components/mobile-menu.tsx:25-28 | the same id is passed on, and then the menu is closed |
| `MobileMenu.Menu.HandleKey` | components/mobile-menu.tsx:32-36 | Escape closes an open menu; any other key, or Escape on a closed menu, changes nothing |
| `MobileMenu.Menu.Unmount` | components/mobile-menu.tsx:46-49 | the cleanup always unlocks the body |
| `MobileMenu.MenuHighlight` | components/mobile-menu.tsx:16-23 | whatever section is active, at most one menu item is highlighted (line 113), and one is exactly when the section has an item; 'achievements', which has a desktop nav button, highlights no menu item |
| `GitHubStats.Panel.constructor` | components/github-stats.tsx:31-34 | loading, with no error, no stats and no repositories |
| `GitHubStats.Panel.FetchGitHubData` | components/github-stats.tsx:39-62 | The user record is fetched first, and the repositories only after it succeeded. A failure stores its message, or 'An error occurred'. A repository failure keeps the stored user record. Loading always ends |
| `GitHubStats.Caught` | components/github-stats.tsx:56 | an Error's message, or 'An error occurred' |
| `GitHubStats.ViewOf` | components/github-stats.tsx:64-108 | the loading view comes first, then the error view (for a non-empty error), then the data |
| `GitHubStats.ReposFailureHidesStats` | components/github-stats.tsx:46-52 | a repository failure after the user record was stored still shows the error view |
| `GitHubStats.EmptyErrorShowsData` | components/github-stats.tsx:98 | an empty error message is falsy, so the data view is shown |
| `GitHubStats.ShownCount` | components/github-stats.tsx:147 | a missing record or count shows 0 (also lines 162 and 177) |
| `GitHubStats.ShownSince` | components/github-stats.tsx:192 | 'N/A' before the user record is stored |
| `GitHubStats.Rendered` | components/github-stats.tsx:253 | at most six repositories are rendered, in the order listed |
| `GitHubStats.ShownDescription` | components/github-stats.tsx:273 | a missing description shows 'No description available' |
| `GitHubStats.LanguageBadge` | components/github-stats.tsx:276-279 | the language badge appears exactly when the language is non-empty |
| `GitHubStats.LanguageColor` | components/github-stats.tsx:117-131 | a listed language gets its colour, any other name 'bg-gray-400' |
| `GitHubStats.LanguageTable` | components/github-stats.tsx:117-131 | TypeScript is 'bg-blue-500'; an unlisted language such as Kotlin is grey |
| `Animations.Element.constructor` | lib/animations.ts:78 | a fresh element has no markup and no animation |
| `Animations.FadeIn` | lib/animations.ts:8-18 | nothing happens for a missing element; otherwise one fade-in with the given delay starts |
| `Animations.ParallaxOn` | lib/animations.ts:36-49 | nothing happens for a missing element; otherwise one parallax with the given speed starts |
| `Animations.ScaleOn` | lib/animations.ts:54-73 | nothing happens for a missing element; otherwise one scale animation starts |
| `Animations.Span` | lib/animations.ts:82 | a space becomes `&nbsp;`, and any other character goes into an inline-block span unescaped |
| `Animations.RevealMarkup` | lib/animations.ts:81-82 | the markup is empty exactly when the text is |
| `Animations.ReadSpan` | lib/animations.ts:82 | one span reads back as its character |
| `Animations.RevealRoundTrip` | lib/animations.ts:81-82 | reading the spans back gives the text exactly, so there is one span per character, in order |
| `Animations.RevealedText` | lib/animations.ts:81 | a null `textContent` yields no characters |
| `Animations.TextRevealOn` | lib/animations.ts:78-93 | Nothing happens for a missing element. Otherwise the markup becomes the spans of its text (empty for an empty or null text), and one animation of that many spans starts |

## Left out

- Outside services are outcomes passed in, not modelled:
  - the posting fetch (`fetch(jobUrl)` and `response.text()`);
  - the language model calls, both one-shot and streaming;
  - the mail service;
  - the GitHub API;
  - the client-side `fetch` calls.
- `JSON.parse` is the parameter `parse` of `JobMatchRoute.Post`. The response bodies the clients read are reduced to the one property each client looks at (`error`).
- The wording of the job-match prompt and of the chat system prompt (which includes a résumé file read at start-up) are parameters. Their text is not spelled out.
- `JsonString.Escape`: lone surrogate code units, which `JSON.stringify` writes as `\uXXXX`, cannot occur in a Dafny string and are not modelled. The stream's UTF-8 encoding by `TextEncoder` is not modelled either: frames are sequences of characters.
- Text is limited to characters of the Basic Multilingual Plane, one UTF-16 code unit each: a Dafny `char` is a Unicode scalar value, so a `char` above U+FFFF would stand for two JavaScript code units (a surrogate pair). Strings holding such characters (emoji, for instance) are not modelled, and with them:
  - surrogate pairs, and lone surrogates, in any string;
  - what code-unit indexing does to them, such as `indexOf` positions counted in code units.
- `Animations.TextRevealOn`: for a character above U+FFFF, `split('')` in the source yields its two lone surrogates and so writes two spans; the model, which has no such characters, always writes one span per character.
- `JobMatchRoute.ExtractText`: `substring(0, 5000)` in the source counts code units and can cut a surrogate pair in half; the model's 5000 counts characters, which agree only on text within the Basic Multilingual Plane.
- `ChatRoute.Start`: when the stream errors, it drops the frames still queued that the client has not read. How many delivered frames reach the client depends on timing, which is not modelled; `queue` records every frame enqueued.
- `EventStream.Events` keeps only the `data` field. The `event`, `id` and `retry` fields, a leading byte-order mark and reconnection are not modelled; the chat route sends none of them.
- Request bodies whose fields are not strings are not modelled: numbers, objects, a `null` body, or a `messages` value that is not an array. In the source these throw or stringify oddly before reaching the modelled paths.
- `ContactRoute.Notification` and `ContactRoute.Confirmation`: the emails are records of what they carry. The HTML templates and their styling are not modelled, and values are not HTML-escaped in the source either.
- `ContactForm.ContactFormState.HandleInputChange`: field names outside the six form fields are not modelled. In the source they would add a new property.
- `ContactForm.Settle`: a failing `response.text()` on a non-JSON body is not modelled. A JSON body of `null`, whose `.error` would throw a TypeError, is not modelled either.
- State updates in React are asynchronous. Each handler is modelled as running to completion on the state it started with; edits made while a request is in flight are not modelled.
- `JobMatchAnalyzer.ScoreBand`: scores are reals. `NaN`, which JavaScript would colour red, is not modelled.
- `GitHubStats.LanguageColor`: names inherited from `Object.prototype` (such as `constructor`) are not modelled. The source's lookup would return a function for them, not a colour.
- `GitHubStats.ShownSince`: the locale date formatting (`formatDate`) is not modelled; the stored creation date is returned as is.
- The 300 ms timer that removes the `theme-transition` class is not modelled.
- Event listener registration and removal are not modelled: the page's `scroll` and `keydown` listeners, and the menu's Escape listener. Handlers are called directly.
- Smooth scrolling and the ScrollReveal options other than the delay are not modelled. The `showContent` gate of the reveal effect is not modelled.
- The animation library (gsap) is not modelled. `staggerFadeIn`, which only forwards to it, is not modelled.
- After `textReveal` replaces `innerHTML`, the browser re-parses the markup. The element's `textContent` afterwards is not modelled.
- JSX rendering is not modelled, including the theme provider's pass-through of its children.
