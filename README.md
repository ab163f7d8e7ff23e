# Health assistant web app: chat core, composer, swipe and route logic

The app is a React single-page health assistant. Most of it is presentation.
This project models the parts that make decisions, and proves what they promise.

- **Reply engine** (`ResponseEngine`). `generateBotResponse` lower-cases the
  question and tests trigger words in a fixed order: "malaria", then
  "vaccination"/"vaccine", then "prevention"/"prevent". It returns one of four
  canned replies with the type warning, info, success or none. The engine is
  proved equal to a top-down scan of a priority table. The proofs show that
  matching ignores case, that the first match wins, and that the "prevention"
  trigger is redundant.
- **Conversation log** (`ChatPage.Page`). A send appends the user entry,
  raises the typing flag, and starts two 2000 ms timers: one clears the flag,
  the other appends the bot's reply. All timers have the same delay and start
  in program order, so they run first-in first-out. The page keeps them as a
  queue, and `FireNextTimer` is the event "the oldest timer runs". The class
  invariant `Paired` says two things:
  - the k-th bot entry is the reply to the k-th user entry;
  - the unanswered user texts are exactly the queued questions, in order.
  It follows that bot entries never outnumber user entries.
- **Composer** (`ChatInput.Composer`). The composer holds the draft, the
  attachments, the attachment-menu flag and the recording flag. It models:
  - the send guard (some text after trimming, or an attachment);
  - clearing the draft and the attachments after a send;
  - Enter versus Shift+Enter;
  - file upload as a loop of appends;
  - removal of attachments by id;
  - the disabled state of the send button;
  - the textarea's row count.
- **Swipe card** (`SwipeableCard.Card`). At the end of a drag, the card tests
  the threshold to the right first and to the left second. It calls at most
  one callback and always springs back to 0.
- **Sidebar and navigation bar** (`Sidebar`, `Navigation`, `AppRoutes`).
  These map a path to the active menu entry and to the page title. Each
  compares the path exactly and falls back to a default. They are checked
  against the menu table and the route patterns of `src/App.jsx`. The router
  ignores case and trailing slashes when it matches a pattern, so it renders
  a page for paths such as '/chat/' that get the default title. Hover takes
  precedence over active in the menu icon state.
- **JavaScript string built-ins** (`JsString`). The model needs
  `toLowerCase`, `includes`, `startsWith`, `trim` and `split('\n')`. Each is
  proved against an independent characterisation.

`ChatScenarios.MalariaConversation` puts the composer and the page together.
A malaria question typed into the composer produces the user entry, and then
the warning reply once both timers have run.

## Model

| member | source | states |
|---|---|---|
| JsString.Includes | src/pages/ChatPage.jsx:24 | `includes` as a scan of the suffixes; it has no contract of its own and is characterised by `IncludesIffOccurs` and `CaseInsensitiveIncludes` |
| JsString.StartsWith | src/components/ChatInput.jsx:62 | `startsWith` as a prefix comparison; it has no contract of its own and is characterised by `StartsWithIffPrefix` |
| JsString.StartsWithIffPrefix | src/components/ChatInput.jsx:62 | `startsWith(p)` holds exactly when the text is `p` followed by some text |
| JsString.IncludesIffOccurs | src/pages/ChatPage.jsx:24 | `includes` holds exactly when the pattern occurs at some index of the text |
| JsString.IncludesLongerImpliesShorter | src/pages/ChatPage.jsx:72 | a text that contains `p + q` contains `p` |
| JsString.IncludesInMiddle | src/pages/ChatPage.jsx:48-69 | a text contains any pattern placed between two other texts |
| JsString.Lower | src/pages/ChatPage.jsx:21 | `toLowerCase` keeps the length and lower-cases each character in place |
| JsString.LowerIdempotent | src/pages/ChatPage.jsx:21 | a lower-cased text has no upper-case letter left, and lower-casing it again changes nothing |
| JsString.LowerFixesLowerCase | src/pages/ChatPage.jsx:21 | a text without capitals is its own lower-case form |
| JsString.LowerSlice | src/pages/ChatPage.jsx:21 | lower-casing commutes with taking a slice |
| JsString.CaseInsensitiveIncludes | src/pages/ChatPage.jsx:21-24 | testing `includes` on the lower-cased text succeeds exactly when some slice of the original, lower-cased, equals the pattern |
| JsString.SkipSpace | src/components/ChatInput.jsx:23 | the scan stops at the first non-space at or after its start, and everything it passes is white space |
| JsString.BackSpace | src/components/ChatInput.jsx:23 | the backward scan stops just past the last non-space, and everything it passes is white space |
| JsString.Trim | src/components/ChatInput.jsx:23-25 | `trim()` returns the slice of the input between the leading and the trailing white space; only white space lies outside it, and it neither starts nor ends with white space |
| JsString.TrimEmptyIff | src/components/ChatInput.jsx:23 | the trimmed text is empty exactly when the whole text is white space |
| JsString.LowerKeepsNonSpace | src/pages/ChatPage.jsx:21 | a character whose lower-case form is not white space is not white space either |
| JsString.NonSpaceInsideTrim | src/components/ChatInput.jsx:23-25 | every non-space character of the text lies inside the trimmed part |
| JsString.OccurrenceInSlice | src/pages/ChatPage.jsx:21-24 | a case-insensitive occurrence inside a slice is an occurrence in that slice, shifted by the slice's start |
| JsString.OccurrenceInsideTrim | src/components/ChatInput.jsx:23-25 | an occurrence of a pattern that starts and ends with a non-space lies inside the trimmed part |
| JsString.TrimKeepsOccurrence | src/components/ChatInput.jsx:23-25 | trimming keeps every case-insensitive occurrence of such a pattern, shifted by the length of the leading white space |
| JsString.SplitLines | src/components/ChatInput.jsx:187 | `split('\n')` always yields at least one piece |
| JsString.SplitLinesCount | src/components/ChatInput.jsx:187 | `split('\n')` yields one piece more than there are line feeds |
| JsString.SplitPiecesLineFree | src/components/ChatInput.jsx:187 | no piece of `split('\n')` holds a line feed |
| JsString.JoinExtendsFirst | src/components/ChatInput.jsx:187 | putting a character in front of the first piece puts it in front of the joined text |
| JsString.SplitJoinRoundTrip | src/components/ChatInput.jsx:187 | joining the pieces with line feeds gives the text back |
| ResponseEngine.CannedText | src/pages/ChatPage.jsx:25-123 | the text of each reply type; it has no contract of its own and is characterised by `GenerateBotResponse` (every reply carries its type's text) and `CannedTextsDistinct` |
| ResponseEngine.GenerateBotResponse | src/pages/ChatPage.jsx:20-125 | the engine is total, its reply text is always the canned text of the reply's type, and that text is never empty |
| ResponseEngine.FirstMatchWins | src/pages/ChatPage.jsx:24-103 | scanning a rule table top-down gives the reply of the earliest rule that fires |
| ResponseEngine.FirstMatchFallback | src/pages/ChatPage.jsx:106-124 | when no rule fires, the scan gives the fallback reply |
| ResponseEngine.GenerateFollowsRuleTable | src/pages/ChatPage.jsx:20-125 | `generateBotResponse` equals the top-down scan of the priority table (malaria; vaccination or vaccine; prevention or prevent) over the lower-cased question |
| ResponseEngine.TriggersAreLowerCase | src/pages/ChatPage.jsx:24-72 | every trigger word of the priority table is already lower case, so `MentionsInMiddle` applies to each |
| ResponseEngine.MentionsInMiddle | src/pages/ChatPage.jsx:21-24 | a lower-case word placed anywhere in a question is mentioned by it |
| ResponseEngine.IgnoresCase | src/pages/ChatPage.jsx:21 | lower-casing the question first does not change the reply |
| ResponseEngine.TrimKeepsMention | src/components/ChatInput.jsx:23-25 | trimming a question keeps every mention of a word that starts and ends with a non-space |
| ResponseEngine.MalariaWins | src/pages/ChatPage.jsx:24-45 | any mention of malaria, in any case and with any other words, gives the warning reply, whose text opens with "## Malaria Symptoms" |
| ResponseEngine.VaccineSecond | src/pages/ChatPage.jsx:48-69 | a question that mentions "vaccination" or "vaccine" but not malaria gets the info reply, whose text contains the schedule header row |
| ResponseEngine.PreventionTriggerRedundant | src/pages/ChatPage.jsx:72 | testing "prevention" or "prevent" is the same as testing "prevent" alone |
| ResponseEngine.SuccessExactly | src/pages/ChatPage.jsx:72-103 | the success reply comes exactly when the question mentions "prevent" but neither malaria nor vaccines (both directions) |
| ResponseEngine.FallbackExactly | src/pages/ChatPage.jsx:106-124 | the untyped reply comes exactly when the question mentions no trigger word, and it is then the fixed default reply |
| ResponseEngine.EmptyQuestionFallsBack | src/pages/ChatPage.jsx:106-124 | the empty question gets the default reply |
| ResponseEngine.PriorityExample | src/pages/ChatPage.jsx:24-72 | "malaria vaccination prevention" gets the warning type, because the malaria test comes first |
| ResponseEngine.CannedTextsDistinct | src/pages/ChatPage.jsx:25-123 | the four canned texts are pairwise different, so a reply's text determines its type |
| ChatInput.CanSend | src/components/ChatInput.jsx:23 | the send guard fails exactly for drafts that are all white space and have no attachment |
| ChatInput.SendDisabled | src/components/ChatInput.jsx:219 | the send button is disabled exactly when the parent disables it or the send guard fails |
| ChatInput.SubmitsOnKey | src/components/ChatInput.jsx:35 | only Enter can submit, Shift always prevents it, and Enter without Shift always submits |
| ChatInput.MakeAttachment | src/components/ChatInput.jsx:56-63 | the entry carries the given id and kind and the file's name and size, and has a preview exactly when the MIME type starts with "image/" |
| ChatInput.NewAttachments | src/components/ChatInput.jsx:55-64 | one entry per picked file, in selection order, carrying the file's id, name and the upload kind |
| ChatInput.RemoveById | src/components/ChatInput.jsx:69-71 | an entry is kept exactly when it was present and its id differs, and the list never grows |
| ChatInput.RemoveByIdDistributes | src/components/ChatInput.jsx:69-71 | the filter works part by part on a concatenation, so kept entries stay in their order |
| ChatInput.RemoveAbsentId | src/components/ChatInput.jsx:69-71 | removing an id that no entry carries leaves the list unchanged |
| ChatInput.TextareaRows | src/components/ChatInput.jsx:187 | `rows` is the number of line feeds plus one, so the `|| 1` fallback never applies |
| ChatInput.Composer.constructor | src/components/ChatInput.jsx:15-18 | empty draft, no attachments, menu closed, not recording |
| ChatInput.Composer.SetMessage | src/components/ChatInput.jsx:182 | typing replaces the draft |
| ChatInput.Composer.ToggleFileMenu | src/components/ChatInput.jsx:123 | the paperclip flips the attachment menu |
| ChatInput.Composer.ToggleRecording | src/components/ChatInput.jsx:41-51 | the recording flag flips |
| ChatInput.Composer.HandleSend | src/components/ChatInput.jsx:22-32 | sends exactly when the guard holds; the payload is the trimmed draft with the current attachments; a send clears both, and a refused send changes nothing |
| ChatInput.Composer.HandleKeyPress | src/components/ChatInput.jsx:34-39 | Enter without Shift prevents the default action and runs the send; any other key does nothing |
| ChatInput.Composer.HandleFileUpload | src/components/ChatInput.jsx:53-67 | appends one entry per file, in order, after the existing ones, and closes the menu |
| ChatInput.Composer.RemoveFile | src/components/ChatInput.jsx:69-71 | the attachments become the filtered list |
| ChatPage.UserTextsAppend | src/pages/ChatPage.jsx:137 | appending an entry adds its text to the user texts exactly when it is a user entry |
| ChatPage.BotRepliesAppend | src/pages/ChatPage.jsx:152 | appending an entry adds its reply to the bot replies exactly when it is a bot entry |
| ChatPage.QueuedQuestionsConcat | src/pages/ChatPage.jsx:142-154 | the queued questions of two timer queues put together are those of the first followed by those of the second |
| ChatPage.PairedCounts | src/pages/ChatPage.jsx:128-154 | every user entry is answered or queued, so bot entries never outnumber user entries |
| ChatPage.PairedAfterSend | src/pages/ChatPage.jsx:128-154 | a send keeps the pairing invariant |
| ChatPage.PairedAfterStopTyping | src/pages/ChatPage.jsx:16 | the typing timer keeps the pairing invariant |
| ChatPage.PairedAfterDeliver | src/pages/ChatPage.jsx:142-153 | delivering a reply answers the oldest unanswered user entry and keeps the pairing invariant |
| ChatPage.Page.constructor | src/pages/ChatPage.jsx:8-9 | empty log, not typing, no timers, invariant holds |
| ChatPage.Page.SimulateTyping | src/pages/ChatPage.jsx:14-17 | raises the typing flag and queues the timer that clears it; the log and the queued questions are unchanged, so the pairing invariant is kept |
| ChatPage.Page.HandleSendMessage | src/pages/ChatPage.jsx:128-154 | appends exactly one user entry with the given text and files, leaves earlier entries unchanged, raises the flag, queues the typing timer then the reply, and keeps the invariant |
| ChatPage.Page.FireNextTimer | src/pages/ChatPage.jsx:14-153 | the oldest timer runs: the typing timer clears the flag; the reply timer appends one bot entry holding `generateBotResponse` of its question; with no timer pending nothing changes; the invariant holds |
| ChatPage.Page.ReceiveInitialMessage | src/pages/ChatPage.jsx:157-167 | a non-empty initial message is sent with no files, the typing flag is raised and the route is replaced; otherwise nothing changes |
| ChatScenarios.SendDraft | src/components/ChatInput.jsx:22-32 | a sendable draft typed into a fresh composer yields one user entry with the trimmed text and queues its two timers |
| ChatScenarios.RunReplyTimers | src/pages/ChatPage.jsx:142-153 | running a send's two timers clears the flag and then logs the reply to that send's text |
| ChatScenarios.MalariaDraft | src/components/ChatInput.jsx:22-25 | a draft mentioning malaria can be sent, and its trimmed text gets the warning reply |
| ChatScenarios.MalariaConversation | src/pages/ChatPage.jsx:24-45 | a draft mentioning malaria, with any white space around it, produces the user entry, then the warning reply that opens with the malaria heading |
| SwipeableCard.ClassifyDrag | src/components/SwipeableCard.jsx:18-27 | a left swipe only when the right test fails, and a swipe of either kind only past one of the thresholds |
| SwipeableCard.DeadZone | src/components/SwipeableCard.jsx:18-27 | the thresholds are strict: no swipe exactly when the offset is within ±100 and the velocity within ±500 |
| SwipeableCard.RightWinsConflict | src/components/SwipeableCard.jsx:18-23 | when both tests would pass, the right swipe wins |
| SwipeableCard.MirrorSymmetricIffNoConflict | src/components/SwipeableCard.jsx:18-27 | mirroring the drag mirrors the result exactly for drags that are not conflicting |
| SwipeableCard.RightSwipeMonotone | src/components/SwipeableCard.jsx:18 | dragging further or faster to the right keeps a right swipe a right swipe |
| SwipeableCard.Card.constructor | src/components/SwipeableCard.jsx:10 | the card starts at 0 with the callbacks its parent passed |
| SwipeableCard.Card.Drag | src/components/SwipeableCard.jsx:37-40 | during a drag the animation library sets `x` to a position the model takes as given, with the callbacks unchanged |
| SwipeableCard.Card.HandleDragEnd | src/components/SwipeableCard.jsx:14-32 | the right callback runs exactly for a right swipe when present, the left one exactly for a left swipe when present, never both, no callback in every other case, and `x` ends at 0 |
| Sidebar.GetActiveSection | src/components/Sidebar.jsx:30-38 | the active section is always the id of some menu item |
| Sidebar.MenuKeysDistinct | src/components/Sidebar.jsx:53-99 | menu ids and menu paths are pairwise distinct |
| Sidebar.ActiveSectionRoundTrip | src/components/Sidebar.jsx:30-38 | each menu item's path makes that item active |
| Sidebar.UnknownPathIsHome | src/components/Sidebar.jsx:37 | every path that is not a menu path, such as '/suggestions' or '/chat/', gives 'home' |
| Sidebar.ExactlyOneActive | src/components/Sidebar.jsx:217 | for every path exactly one menu item is rendered active |
| Sidebar.IconStateOf | src/components/Sidebar.jsx:226 | an icon hovers exactly when it is the hovered item, and is active exactly when it is the active section and not hovered |
| Sidebar.IconStatesAtMostOne | src/components/Sidebar.jsx:226 | at most one icon hovers and at most one is active; the hovered item shows hover even when it is the active section |
| Sidebar.Panel.constructor | src/components/Sidebar.jsx:25 | nothing is hovered at first |
| Sidebar.Panel.IconOf | src/components/Sidebar.jsx:213-226 | the panel's icon for an item hovers exactly when that item is hovered, and is active only for the active section |
| Sidebar.Panel.MouseEnter | src/components/Sidebar.jsx:213 | mouse-enter records the item id |
| Sidebar.Panel.MouseLeave | src/components/Sidebar.jsx:214 | mouse-leave clears it |
| Navigation.GetPageTitle | src/components/Navigation.jsx:35-52 | the title is one of the six page titles or the default 'Health AI' |
| Navigation.KnownPathTitles | src/components/Navigation.jsx:36-48 | each of the six listed paths gets its fixed title |
| Navigation.TitlesDistinct | src/components/Navigation.jsx:36-50 | the six titles differ from each other and from 'Health AI' |
| Navigation.NonDefaultIffKnown | src/components/Navigation.jsx:35-52 | a path gets a title other than 'Health AI' exactly when the switch lists it, with no trailing-slash normalisation |
| Navigation.PathDisplay | src/components/Navigation.jsx:109 | the path line shows the current path in both branches |
| AppRoutes.Routed | src/App.jsx:74-81 | the router renders a page for a path when some pattern matches its first characters, ignoring ASCII case, and the rest is only slashes; it has no contract of its own and is characterised by `RoutedAt`, `PatternsAreRouted` and `VariantsRoutedButUntitled` |
| AppRoutes.RoutedAt | src/App.jsx:74-81 | a path whose first characters match a pattern, ignoring case, and whose rest is slashes is routed |
| AppRoutes.PatternsAreRouted | src/App.jsx:75-80 | every route pattern, written exactly, is routed |
| AppRoutes.SlashVariantRouted | src/App.jsx:76 | '/chat/' is routed to the chat page |
| AppRoutes.CaseVariantRouted | src/App.jsx:76 | '/CHAT' is routed to the chat page |
| AppRoutes.ExactOnly | src/components/Navigation.jsx:35-52 | a path spelt as no pattern gets the default title, and the sidebar marks 'home' |
| AppRoutes.VariantsRoutedButUntitled | src/App.jsx:76 | '/chat/' and '/CHAT' render the chat page, yet the title bar shows 'Health AI' and the sidebar marks 'home' |
| AppRoutes.RoutedPagesHaveTitles | src/App.jsx:75-80 | a path spelt exactly as a route pattern gets a non-default title |
| AppRoutes.MenuPathsAreRouted | src/components/Sidebar.jsx:53-99 | every sidebar entry leads to a routed page |
| AppRoutes.MenuCaptionsMatchTitles | src/components/Sidebar.jsx:53-99 | every sidebar caption equals its page's title except the first ('Home' over 'Welcome') |
| AppRoutes.SuggestionsHighlightsHome | src/App.jsx:77 | '/suggestions' is routed but has no menu entry, so the sidebar marks 'home' active there |

## Left out

- Rendering, styling and animation are not modelled. This covers JSX, Tailwind classes, framer-motion variants, `useTransform` (rotation and opacity of the card) and markdown display.
- Time is not modelled. The 2000 ms `setTimeout`s are the queued `Timer` events. The model fixes the order they fire in, not when they fire.
- `Date.now()`, `Math.random()` and ISO timestamps are parameters: the `now`, `ids`, `timestamp` and `isoTime` arguments.
- `toLowerCase` is modelled for the letters A-Z only. Only two non-ASCII characters lower-case to ASCII letters (U+0130 and U+212A), and neither can complete a trigger word.
- Strings are sequences of Unicode scalar values, not UTF-16 code units. No modelled logic depends on string length.
- `File` objects and `URL.createObjectURL` are reduced to a flag saying whether a preview is made (the MIME type starts with "image/").
- React Router's matching is modelled for static patterns only: ASCII case is ignored and trailing slashes are allowed. The patterns are ASCII, so no other case mapping can make a path match. Percent-decoding of the path before matching is not modelled.
- `formatFileSize` is not modelled: it is floating-point formatting.
- `console.log` in `toggleRecording` is not modelled, and neither is the voice recording, which the app does not implement.
- `navigate` is not modelled. `ReceiveInitialMessage` returns whether it replaces the route. Sidebar clicks, back/forward, `window.open` and `window.location.reload` only hand control to the router or the browser.
- The `disabled` prop of the composer is not modelled. It only disables the buttons and the textarea in the DOM; the handlers never test it. `SendDisabled` models the attribute.
- The canned reply texts are written out in full. Only their headings, the schedule header row and their distinctness are proved about.
- Static content tables are not modelled: the multilingual welcome, suggestion and prevention pages, the mobile menu, and the button variants.
- User and bot entries may interleave when the user sends again before a reply arrives. The model allows that, and `Paired` covers it. Replies never overtake each other, because all timers have the same delay.
