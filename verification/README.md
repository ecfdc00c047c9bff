# SyncHealth (MediCode Bridge) — a verified model of the website's logic

MediCode Bridge is a demo website for mapping traditional-medicine diagnoses (NAMASTE / AYUSH
terminology) to WHO ICD-11 codes. It ships as a React application, a server-rendered page with a
plain JavaScript script, a small Flask server and a one-off data-preparation script. Its logic is
small and falls into four groups:

- **Case-insensitive search over disease records.** This covers three things:
  - the suggestion dropdown of the landing pages (`SearchBar`, over the record lists in `Diseases`);
  - the "first match by name" search button of the basic shell (`LandingSearch`);
  - the Flask `/api/search` filter (`FlaskSearch`), plus the name normaliser and column drop of the data script (`DataPrep`).
- **Keyword-priority chatbots.** The chat widget, the simplified chatbot and the Flask `/api/chatbot`
  endpoint share one shape: the first branch whose keyword occurs in the lower-cased message wins, and
  a default answers otherwise (`Keywords`, instantiated in `Replies`). A reply is a canned answer:
  a tag whose text is its exact wording in the source.
- **Chat message lists.** A blank send is a no-op. Any other send appends one user message and,
  later, exactly one bot reply (`ChatLog`). The static page never disables its input, so its requests
  overlap and their replies may arrive in any order.
- **Small UI state machines**, each a record of state plus pure transition functions:
  - page routing and the navigation bars (`Routing`);
  - the static page's navigation, shortcuts, toggles and search box (`StaticApp`);
  - the contact form and FAQ accordion (`Contact`);
  - the use-case timeline (`UseCases`);
  - the feature modal (`Features`).

Shared vocabulary:
- `Wrappers` holds `Option`/`Result`.
- `Seqs` holds order-preserving filter, first match, map, take and subsequence.
- `Text` models the string built-ins:
  - ASCII `toLowerCase` / `lower()`;
  - `includes` / Python `in` as substring occurrence;
  - JavaScript `trim` with the ECMAScript white-space and line-terminator set.

Timers are modelled as separate events (`TimerFires`). In the static page the completion of a
request, with its 500 ms timer, is the separate event `JsRequestDone`, and requests may complete in
any order. Network answers are parameters of the functions that await them.

## Model

| member | source | states |
|---|---|---|
| `Text.Trim` | src/static/js/app.js:166 | the trimmed text is empty exactly when the input is all white space, otherwise it neither starts nor ends with white space, and it is never longer than the input |
| `Text.TrimKeepsInnerText` | src/static/js/app.js:166 | the trimmed text is a slice of the input with nothing but white space before and after it, so trimming removes white space only |
| `Text.TrimPadded` | src/static/js/app.js:166 | white space added on both sides of a text does not change its trimmed form |
| `Diseases.Suggestions` | src/components/DiseaseSearchBar.tsx:67-73 | the filtered list holds exactly the records whose lower-cased name, NAMASTE code or ICD-11 code contains the lower-cased term, and it is a subsequence of the data (dataset order kept) with each matching record as many times as it occurs there |
| `Diseases.OwnFieldsMatch` | src/components/SimpleLandingPage.tsx:43-46 | every record matches its own name, its NAMASTE code and its ICD-11 code |
| `Diseases.OwnNameSuggested` | src/components/DiseaseSearchBar.tsx:68-69 | a record of the list is always among the suggestions for its own name |
| `Diseases.SuggestionsIgnoreCase` | src/components/DiseaseSearchBar.tsx:68-71 | two terms equal after lower-casing give identical suggestion lists |
| `Diseases.DatasetKeysDistinct` | src/components/DiseaseSearchBar.tsx:8-57 | the NAMASTE codes of each record list (eight, four and three records) are pairwise distinct |
| `Diseases.SuggestionKeysDistinct` | src/components/DiseaseSearchBar.tsx:126-128 | filtering a list with distinct NAMASTE codes keeps them distinct, so they can serve as row keys |
| `SearchBar.RunEffect` | src/components/DiseaseSearchBar.tsx:66-79 | an empty term clears the suggestions and hides the dropdown; a non-empty one sets the dropdown flag and makes the suggestions exactly the matching records, as a subsequence of the data |
| `SearchBar.Type` | src/components/DiseaseSearchBar.tsx:111-112 | typing sets the term and keeps the selection; a changed term re-runs the filter on the new term |
| `SearchBar.Dropdown` | src/components/DiseaseSearchBar.tsx:119-126 | rows are rendered exactly when the flag is set and the list is non-empty; they are always a prefix of the suggestions, at most five long, and with the flag set their number is min(5, number of suggestions) |
| `SearchBar.OnSelect` | src/components/DiseaseSearchBar.tsx:81-85 | the selection handler records the disease, copies its name into the term and clears the flag, leaving the list alone |
| `SearchBar.SelectAsWritten` | src/components/DiseaseSearchBar.tsx:66-85 | the handler followed by the re-run of the filtering effect; for a record with a non-empty name the dropdown stays closed exactly when the name equals the previous term |
| `SearchBar.Select` | src/components/DiseaseSearchBar.tsx:81-85 | as intended: selection and term are set, no rows are rendered, and a listed record is among the refreshed suggestions |
| `SearchBar.InitialConsistent` | src/components/DiseaseSearchBar.tsx:60-63 | the initial state's suggestions are the filter of its (empty) term |
| `SearchBar.TypePreservesConsistent` | src/components/DiseaseSearchBar.tsx:66-79 | after typing, the suggestions are still the filter of the current term and an empty term still hides the dropdown |
| `SearchBar.SelectPreservesConsistent` | src/components/DiseaseSearchBar.tsx:81-85 | after a selection, the suggestions are still the filter of the current term |
| `SearchBar.EmptyTermShowsNothing` | src/components/DiseaseSearchBar.tsx:67-77 | with an empty term there are no suggestions and no rendered rows |
| `SearchBar.NoMatchFlagWithoutRows` | src/components/DiseaseSearchBar.tsx:74-119 | a new non-empty term that matches nothing sets the flag, yet no row is rendered |
| `SearchBar.TypeIgnoresCase` | src/components/DiseaseSearchBar.tsx:68-71 | typing two terms that agree after lower-casing gives the same suggestions and the same rows |
| `SearchBar.SimpleLandingNeverTruncates` | src/components/SimpleLandingPage.tsx:88-90 | over the four-record list the five-row cap never cuts anything: the rows are all the suggestions |
| `SearchBar.DropdownKeysDistinct` | src/components/SimpleLandingPage.tsx:90-92 | the rendered rows carry pairwise distinct NAMASTE keys |
| `SearchBar.SelectAsWrittenReopens` | src/components/DiseaseSearchBar.tsx:74-84 | as written, choosing a listed record whose name differs from the term leaves the dropdown open, listing that record |
| `SearchBar.SelectAfterTypingReopens` | src/components/DiseaseSearchBar.tsx:81-85 | typing "diab" and choosing "Diabetes Mellitus" leaves rows rendered |
| `LandingSearch.HandleSearch` | src/App.tsx:68-73 | the result is the first record in list order whose lower-cased name contains the lower-cased term, and null exactly when no name does |
| `LandingSearch.EmptyTermSelectsFirst` | src/App.tsx:68-71 | the empty term selects the first record of any non-empty list |
| `LandingSearch.EmptySearchShowsDiabetes` | src/App.tsx:62-71 | on the shell's list an empty search selects "Diabetes Mellitus" |
| `LandingSearch.NoMatchHidesResults` | src/App.tsx:72-105 | when no name matches, nothing is selected and the results panel is not rendered |
| `LandingSearch.SearchIsHeadOfFilter` | src/App.tsx:69-72 | the selected record is the head of the full name filter, and null exactly when that filter is empty |
| `LandingSearch.OwnNameFound` | src/App.tsx:69-71 | searching for a listed record's own name always selects a record |
| `Keywords.Respond` | src/components/ChatbotWidget.tsx:54-77 | the reply is that of some branch that fires on the lower-cased message with no earlier branch firing, or the fallback when no branch fires |
| `Keywords.RespondFirstFiring` | src/components/ChatbotWidget.tsx:57-60 | the first branch that fires answers |
| `Keywords.RespondFallback` | src/components/ChatbotWidget.tsx:76 | with no branch firing the fallback answers |
| `Keywords.DeadNeverFires` | src/components/ChatbotWidget.tsx:58 | a branch without keywords (the skipped `default` entry) never fires |
| `Keywords.RespondIdentifiesBranch` | src/components/ChatbotWidget.tsx:57-74 | with distinct replies, branch i's reply comes back if and only if branch i is the first to fire |
| `Keywords.RespondFallbackIff` | src/components/ChatbotWidget.tsx:76 | with distinct replies, the fallback comes back if and only if no branch fires |
| `Keywords.RespondIgnoresCase` | src/components/ChatbotWidget.tsx:55 | messages equal after lower-casing get the same reply |
| `Keywords.RespondToLowered` | src/components/ChatbotWidget.tsx:55 | lower-casing the message first does not change the reply |
| `Keywords.KeywordFires` | src/app.py:49 | a branch fires as soon as any one of its keywords occurs (the `help`/`what` branch has two) |
| `Replies.AnswerTextsDistinct` | src/components/ChatbotWidget.tsx:20-74 | the nine canned answers of the React chatbots have pairwise different wordings, so the text shown identifies the answer |
| `Replies.EntryRule` | src/components/ChatbotWidget.tsx:57-58 | a table entry fires exactly when its key occurs in the lower-cased message, except `default`, which never fires; its answer is the entry's |
| `Replies.Lookup` | src/components/ChatbotWidget.tsx:76 | a key lookup finds an entry with that key, and fails exactly when no entry has it |
| `Replies.WidgetRulesFromTable` | src/components/ChatbotWidget.tsx:20-27 | the widget's branch list is its response table in declaration order followed by the diabetes, hypertension and asthma checks |
| `Replies.WidgetDefaultLookup` | src/components/ChatbotWidget.tsx:26 | the widget's fallback is the answer stored under the table's `default` key |
| `Replies.WidgetRepliesDistinct` | src/components/ChatbotWidget.tsx:20-74 | the widget's firing branches have pairwise distinct answers, all different from the default |
| `Replies.WidgetDefaultKeyNeverMatches` | src/components/ChatbotWidget.tsx:58 | the `default` key never matches, even in a message containing "default" |
| `Replies.WidgetPriority` | src/components/ChatbotWidget.tsx:55-76 | the widget gives branch i's answer exactly when branch i is the first whose keyword the lower-cased message contains (order vata, namaste, ayush, accuracy, api, diabetes, hypertension, asthma), and the default exactly when none does |
| `Replies.WidgetVataFirst` | src/components/ChatbotWidget.tsx:57-61 | any message containing "vata" in any case gets the Vata answer |
| `Replies.WidgetVataBeatsDiabetes` | src/components/ChatbotWidget.tsx:57-66 | "Vata and diabetes" gets the Vata answer: table keywords beat disease checks |
| `Replies.ApiFiresOnTherapist` | src/components/ChatbotWidget.tsx:25 | the `api` entry fires on "therapist" |
| `Replies.NoEarlierTableKeyword` | src/components/ChatbotWidget.tsx:21-24 | a message lacking one letter of each of vata, namaste, ayush and accuracy fires none of the first four entries |
| `Replies.TherapistFiresApiFirst` | src/components/ChatbotWidget.tsx:21-25 | the `api` entry is the first branch to fire on "therapist" |
| `Replies.WidgetTherapistGetsApi` | src/components/ChatbotWidget.tsx:57-61 | the substring trap: "therapist" gets the API answer |
| `Replies.WidgetIgnoresCase` | src/components/ChatbotWidget.tsx:55 | messages equal after lower-casing get the same widget answer |
| `Replies.SimpleRulesFromTable` | src/components/SimpleChatbot.tsx:12-17 | the simplified chatbot's branches are its table in order, and its `default` entry holds the default answer |
| `Replies.SimpleAnswerIsCanned` | src/components/SimpleChatbot.tsx:35-45 | the simplified chatbot only ever gives the Vata, NAMASTE, diabetes or default answer |
| `Replies.SimpleRepliesDistinct` | src/components/SimpleChatbot.tsx:12-17 | its firing branches have distinct answers, all different from the default |
| `Replies.SimplePriority` | src/components/SimpleChatbot.tsx:36-44 | it gives branch i's answer exactly when branch i (vata, namaste, diabetes) fires first, and the default exactly when none fires |
| `Replies.NoSimpleKeywordIn` | src/components/SimpleChatbot.tsx:13-15 | a message lacking one letter of each keyword fires no branch |
| `Replies.SimpleDefaultWithout` | src/components/SimpleChatbot.tsx:36-44 | a message whose lower-cased form lacks one letter of each keyword gets the default answer |
| `Replies.SimpleUnknownDiseaseGetsDefault` | src/components/SimpleChatbot.tsx:12-44 | "hypertension" and "asthma", which the widget answers, get the simplified chatbot's default answer |
| `Replies.FlaskTextsDistinct` | src/app.py:42-52 | the endpoint's six canned answers have pairwise different wordings |
| `Replies.FlaskRepliesDistinct` | src/app.py:41-52 | the endpoint's branches have distinct answers, all different from the fallback |
| `Replies.FlaskPriority` | src/app.py:38-52 | the endpoint gives branch i's answer exactly when branch i (diabetes, vata, hypertension, asthma, help-or-what) fires first on the lower-cased message, and the fallback exactly when none fires |
| `Replies.FlaskDiseaseBeatsWhat` | src/app.py:41-50 | "what is diabetes" gets the diabetes answer |
| `Replies.FlaskMissingMessageFallback` | src/app.py:38-52 | a missing `message` parameter reads as the empty string and gets the fallback |
| `ChatLog.WidgetSend` | src/components/ChatbotWidget.tsx:79-91 | a blank text leaves the widget unchanged; any other appends exactly one user message with the untrimmed text, clears the input, starts typing and leaves the reply pending |
| `ChatLog.WidgetReplyArrives` | src/components/ChatbotWidget.tsx:94-103 | the timer appends exactly one bot message, the reply to the pending text, and stops typing |
| `ChatLog.WidgetInitialInv` | src/components/ChatbotWidget.tsx:31-37 | the initial list (the greeting alone) satisfies the widget invariant, whatever the responder |
| `ChatLog.WidgetSendInv` | src/components/ChatbotWidget.tsx:79-91 | a send with no reply pending keeps the invariant: alternating senders, no blank user message, every later bot message answering the message before it, pending exactly while typing |
| `ChatLog.WidgetReplyArrivesInv` | src/components/ChatbotWidget.tsx:94-103 | the arrival of the pending reply keeps the invariant |
| `ChatLog.WidgetStepWithInv` | src/components/ChatbotWidget.tsx:79-108 | every event (typing, Enter, send button, quick question, timer) keeps the invariant, whatever the responder |
| `ChatLog.WidgetStepInv` | src/components/ChatbotWidget.tsx:281-288 | with its disabled input and button, the shipped widget keeps the invariant, so each bot message answers the user message before it |
| `ChatLog.QuickQuestionsUntilFirstSend` | src/components/ChatbotWidget.tsx:256 | in every state satisfying the invariant, the quick questions are visible exactly while no user message has been sent |
| `ChatLog.SimpleSend` | src/components/SimpleChatbot.tsx:47-58 | blank input is a no-op; otherwise one user message with the raw input is appended, the input clears and the text joins the pending queue |
| `ChatLog.SimpleReplyArrives` | src/components/SimpleChatbot.tsx:61-69 | the oldest pending text gets exactly one bot message, the responder's reply to it, and leaves the queue |
| `ChatLog.SimpleInitialInv` | src/components/SimpleChatbot.tsx:22-28 | the initial list satisfies the queue invariant, whatever the responder |
| `ChatLog.SimpleSendInv` | src/components/SimpleChatbot.tsx:48-58 | a send keeps the invariant: the bot texts are the greeting and the replies to the answered user texts, and the pending queue is the unanswered tail |
| `ChatLog.SimpleReplyArrivesInv` | src/components/SimpleChatbot.tsx:61-69 | a reply arrival keeps the invariant |
| `ChatLog.SimpleStepWithInv` | src/components/SimpleChatbot.tsx:47-70 | every event keeps the invariant, whatever the responder |
| `ChatLog.SimpleStepInv` | src/components/SimpleChatbot.tsx:47-70 | with the simplified chatbot's own answers, every event keeps the invariant |
| `ChatLog.SimpleRepliesInOrder` | src/components/SimpleChatbot.tsx:61-69 | once nothing is pending, the n-th bot reply after the greeting answers the n-th user message |
| `ChatLog.JsSend` | src/static/js/app.js:165-171 | a blank input is a no-op; otherwise exactly one user line is appended, holding the trimmed text (non-empty, no surrounding white space), the input clears and the text joins the requests in flight |
| `ChatLog.JsReplyArrives` | src/static/js/app.js:173-185 | the completion of any request in flight, in any order, appends exactly one bot line, the endpoint's answer or the error text, removes that one text from the requests in flight and leaves the input alone |
| `ChatLog.JsInitialInv` | src/static/js/app.js:142-150 | the page markup's initial lines with nothing in flight satisfy the invariant, whatever the endpoint |
| `ChatLog.JsSendInv` | src/static/js/app.js:165-171 | a send keeps the invariant: user lines trimmed and non-empty, every text in flight sent as a user line, every bot line answering an earlier user line, and user lines = bot lines + requests in flight |
| `ChatLog.JsReplyArrivesInv` | src/static/js/app.js:173-185 | a completing request keeps the invariant |
| `ChatLog.JsStepInv` | src/static/js/app.js:141-185 | every event (typing, send button, any key press, completion of any request) keeps the invariant, whatever the endpoint |
| `ChatLog.JsOverlappingSends` | src/static/js/app.js:165-185 | the input is never disabled, so two sends can both show their user lines before any reply, and the second reply can arrive first |
| `ChatLog.JsAgainstFlask` | src/static/js/app.js:166-179 | against the Flask endpoint the bot line of a completing request is the chatbot reply to a text that was sent as a user line, and padding the input with white space changes neither the lines nor the requests |
| `Routing.NavIdsArePageIds` | src/App.tsx:11-17 | the navigation ids are the pages' ids in order and pairwise distinct |
| `Routing.RenderPage` | src/App.tsx:458-473 | a known id renders the page with that id; anything else renders the landing page |
| `Routing.RenderPageId` | src/App.tsx:459-469 | rendering a page's own id gives that page back |
| `Routing.Highlights` | src/App.tsx:41-45 | item i is highlighted exactly when its id equals the current page |
| `Routing.AtMostOneHighlighted` | src/components/Navigation.tsx:14-20 | at most one item is highlighted, and one is exactly when the current page is a known id |
| `Routing.DesktopClick` | src/components/Navigation.tsx:45 | a desktop click sets the page to the item's id and leaves the menu as it was |
| `Routing.MobileClick` | src/components/Navigation.tsx:91-94 | a mobile click sets the page to the item's id and closes the menu |
| `Routing.ToggleMenu` | src/components/Navigation.tsx:69 | the menu button flips the menu flag and nothing else |
| `Routing.ToggleMenuTwice` | src/components/Navigation.tsx:69 | two presses restore the state |
| `Routing.ClickHighlightsItem` | src/components/Navigation.tsx:45-55 | after clicking item i, only item i is highlighted and its page is rendered, from either bar |
| `Routing.NavInvPreserved` | src/App.tsx:456-473 | starting at "home", clicks and toggles only ever set known page ids, and the rendered page's id is the current page |
| `Routing.ToggleChatbot` | src/App.tsx:417 | the chatbot button flips the open flag |
| `Routing.ToggleChatbotTwice` | src/App.tsx:412-417 | two presses restore the flag |
| `Routing.SubmitBasicForm` | src/App.tsx:333-386 | submitting the basic contact form empties name, e-mail and message when all three `required` fields are filled in; with any of them empty the browser blocks it and the form keeps what was typed; afterwards the form cannot be submitted again |
| `Routing.SubmitBasicFormIdempotent` | src/App.tsx:333-386 | a submit changes the form exactly when every required field is filled in, and a second submit changes nothing because the `required` fields are now empty |
| `Routing.BasicFillAndSubmit` | src/App.tsx:333-395 | typing into the three fields and submitting ends with a blank form when all three are non-empty, and otherwise with exactly what was typed |
| `StaticApp.MarkActive` | src/static/js/app.js:46-59 | afterwards an element is active exactly when its identifier equals the page; identifiers are kept |
| `StaticApp.MarkActiveForgets` | src/static/js/app.js:46-51 | the result does not depend on the previous flags, and marking again for the same page changes nothing |
| `StaticApp.MarkActiveSingle` | src/static/js/app.js:54-59 | with distinct identifiers at most one element is active |
| `StaticApp.NavigateToPage` | src/static/js/app.js:41-60 | the current page, the nav items and the page sections all follow the page; the chatbot and menu are untouched |
| `StaticApp.ClickNavItem` | src/static/js/app.js:236-242 | a nav click shows the item's page, marks active exactly the items with its `data-page` and closes the mobile menu |
| `StaticApp.ToggleChatbot` | src/static/js/app.js:152-163 | the toggle flips `chatbotOpen` and nothing else |
| `StaticApp.ToggleMobileMenu` | src/static/js/app.js:231-234 | the menu button flips the menu flag and nothing else |
| `StaticApp.ShortcutPage` | src/static/js/app.js:280-286 | only the keys '1' to '5' have a shortcut, and each names a navigation id |
| `StaticApp.ShortcutIsNavOrder` | src/static/js/app.js:280-291 | digit n goes to the n-th navigation id (home, features, api-docs, use-cases, contact) |
| `StaticApp.EscapeOnlyCloses` | src/static/js/app.js:274-276 | Escape closes an open chatbot, does nothing to a closed one, and changes nothing else |
| `StaticApp.KeyNavigatesIff` | src/static/js/app.js:279-291 | for every key but Escape: the page switches exactly when Ctrl or Meta is held and the key is one of the five digits, and any other such key changes nothing |
| `StaticApp.PerformSearch` | src/static/js/app.js:72-106 | a blank query shows "Please enter a disease name" and sends no request; otherwise the trimmed query is sent, and the box shows the failure text, the server's error, the first result's codes or the no-match text |
| `StaticApp.SearchAgainstFlask` | src/static/js/app.js:84-96 | against the Flask endpoint the page never provokes the missing-query error, and it shows the first found row's codes or the no-match text |
| `FlaskSearch.SearchDisease` | src/app.py:23-34 | a missing or empty query is a 400 with 'Query parameter required'; otherwise the results are exactly the rows whose lower-cased name or stored Ayurveda name contains the lower-cased query, as a subsequence of the rows, each matching row as many times as it occurs in the table |
| `FlaskSearch.SearchIgnoresQueryCase` | src/app.py:25 | queries equal after lower-casing give the same answer |
| `FlaskSearch.AyurvedaMatchHasNoUpper` | src/app.py:31 | a match inside the stored Ayurveda name never covers an upper-case letter |
| `FlaskSearch.UpperAyurvedaNeverMatches` | src/app.py:25-31 | a row whose Ayurveda name is in capitals is found only through its English name |
| `FlaskSearch.RowFoundByName` | src/app.py:31 | every row is found by its own non-empty English name, in any case |
| `FlaskSearch.ResultsDistinct` | src/app.py:30-32 | no row appears twice in the results when the rows are distinct |
| `FlaskSearch.SearchResponse` | src/app.py:27-34 | the body carries the error exactly when the search fails, and otherwise the found rows |
| `DataPrep.Normalise` | script.py:3-4 | the result is the prefix of the lower-cased name that ends just before the first " (", or the whole lower-cased name without one |
| `DataPrep.NormaliseHasNoCut` | script.py:4 | a normalised name never contains " (" |
| `DataPrep.NoCutOnlyLowers` | script.py:3-4 | a name without " (" is only lower-cased |
| `DataPrep.NormaliseIsLowerCase` | script.py:3 | a normalised name has no upper-case letter |
| `DataPrep.NormaliseIdempotent` | script.py:3-4 | normalising twice is normalising once |
| `DataPrep.NormaliseColumn` | script.py:3-4 | a missing column is a key error; otherwise that column of every row is normalised and every other cell is kept |
| `DataPrep.DropColumn` | script.py:7 | a missing column is a key error; otherwise the column disappears from the header and every row, and every other cell is kept |
| `DataPrep.Prepare` | script.py:3-7 | the script succeeds exactly when both columns exist, and otherwise fails with a key error naming the first missing one; the result keeps the rows, the other columns in order and every other cell, with the Ayurveda names but no ICD-11 column |
| `DataPrep.PreparedNamesAreNormal` | script.py:3-7 | every prepared Ayurveda name is the normalised original, and normalising it again changes nothing |
| `Contact.InputChange` | src/components/ContactPage.tsx:59-61 | the field gets the value, every other field and flag is unchanged |
| `Contact.Submit` | src/components/ContactPage.tsx:48-50 | a submission from the filled-in form sets submitting; otherwise nothing happens (the button is disabled while submitting) |
| `Contact.SubmitTimerFires` | src/components/ContactPage.tsx:53-56 | the timer ends submitting and shows the thank-you view, keeping the data |
| `Contact.SendAnother` | src/components/ContactPage.tsx:79 | "Send Another Message" returns to the form without clearing it |
| `Contact.ToggleFaq` | src/components/ContactPage.tsx:290 | clicking the open question closes it; clicking another opens it alone; in the thank-you view, which has no accordion, nothing changes; nothing but the accordion changes |
| `Contact.ToggleFaqTwice` | src/components/ContactPage.tsx:290 | two clicks on the same question restore the accordion when nothing else was open |
| `Contact.ToggleFaqTwiceClosesOther` | src/components/ContactPage.tsx:290 | with another question open, two clicks on question i close everything instead |
| `Contact.InitialInv` | src/components/ContactPage.tsx:37-46 | the initial page satisfies the invariant |
| `Contact.StepInv` | src/components/ContactPage.tsx:48-79 | every event keeps the invariant: never submitting and submitted at once, the form keeps its five fields, at most one real FAQ entry is expanded |
| `Contact.SubmitRoundTrip` | src/components/ContactPage.tsx:48-79 | submit then timer reaches the thank-you view with the data kept, and "Send Another Message" restores the filled-in form |
| `UseCases.ClickStep` | src/components/UseCasesPage.tsx:156 | a step click sets the active step to that step's id |
| `UseCases.MouseEnter` | src/components/UseCasesPage.tsx:260 | entering card i records it as hovered |
| `UseCases.MouseLeave` | src/components/UseCasesPage.tsx:261 | leaving a card resets the hover to null |
| `UseCases.DetailStep` | src/components/UseCasesPage.tsx:191-201 | the panel's read at position activeStep - 1 is in range exactly when 1 <= activeStep <= 4 |
| `UseCases.StepIdsArePositions` | src/components/UseCasesPage.tsx:16-49 | the step ids are 1 to 4, each one more than its position |
| `UseCases.InitialInv` | src/components/UseCasesPage.tsx:103-104 | the initial active step 1 is a step id, and nothing is hovered |
| `UseCases.StepInv` | src/components/UseCasesPage.tsx:149-156 | clicks and hovers keep the active step a step id and the hover a valid card index |
| `UseCases.DetailShowsActiveStep` | src/components/UseCasesPage.tsx:191-201 | in every reachable state the panel's read is in range and shows the step whose id is active |
| `UseCases.ClickShowsStep` | src/components/UseCasesPage.tsx:156-170 | after clicking a step the panel shows exactly that step, and only it is highlighted |
| `Features.Ids` | src/components/FeaturesPage.tsx:6-91 | the ids of the six cards in card order |
| `Features.IdsDistinct` | src/components/FeaturesPage.tsx:8-78 | the feature ids are pairwise distinct and non-empty |
| `Features.Lookup` | src/components/FeaturesPage.tsx:96 | the lookup finds a feature with the selected id, and fails exactly for null or an unknown id |
| `Features.LookupFindsCard` | src/components/FeaturesPage.tsx:96-126 | looking up a card's id finds that very card |
| `Features.Step` | src/components/FeaturesPage.tsx:171-193 | a card selects its id; the backdrop and close button clear the selection and hide the modal; a click in the panel changes nothing |
| `Features.InitialInv` | src/components/FeaturesPage.tsx:94 | nothing is selected initially |
| `Features.StepInv` | src/components/FeaturesPage.tsx:119-126 | the selection is always null or the id of a card |
| `Features.ModalIffSelected` | src/components/FeaturesPage.tsx:165 | in reachable states a selection always finds its feature, so the modal shows exactly while something is selected |

## Left out

- DOM work: class toggling, `scrollIntoView`, `innerHTML` error banners and their auto-hide timers, focus, and the `unhandledrejection` banner. Only the abstract page, flag and message state is modelled.
- The 100 ms deferral and 300 ms pointer-event block that wrap `navigateToPage` in src/static/js/app.js:296-310. Navigation is modelled as immediate.
- Overlapping searches on the static page. `searchBtn.disabled` (src/static/js/app.js:82) blocks only the button, and Enter in the input (src/static/js/app.js:65-68) still starts a search, so two requests can be in flight and the last to finish sets the result box. `StaticApp.PerformSearch` models one search from the query to the box it shows.
- Network and framework I/O: `fetch`, Flask routing, `jsonify`, `render_template`. Handlers are pure functions over an in-memory row list. The browser side receives the server's answer as a function parameter, with `None` for a failed request.
- pandas: reading and writing CSV/Excel and NaN cells. The tables are in-memory maps. The server loads `final_csv_data.csv`, while the script writes `to_show.csv`; the link between the two files is not modelled.
- Clipboard copy feedback in every component. It is a foreign asynchronous API plus timers.
- Message ids from `Date.now()`, the random reply delay, and `isMounted` / scrolling in the chat components. Each delayed reply is a separate event.
- The open/closed flag of the chat widget and the simplified chatbot windows. It does not touch the message list.
- The static page's contact form (reset and success banner). It is DOM-only.
- The unused `debounce` helper.
- E-mail format validation by the browser: a `type="email"` input also strips surrounding white space and rejects a value that is not an address, on both contact forms. Only the `required` check (no empty field) is modelled.
- APIDocumentationPage and LandingPage: static text, code samples and animation. All motion props, styling and JSX rendering are left out too.
- Unicode case mapping: `toLowerCase` and `lower()` are ASCII-only here.
- `Routing.DesktopClick`, `Routing.MobileClick`, `UseCases.ClickStep`, `UseCases.MouseEnter` and `Contact.ToggleFaq` take an index into the rendered list. The page renders only those items, so no other value can arrive.
- `ChatLog.WidgetStepInv` and `ChatLog.SimpleStepInv` cover the events of one open chat window. Closing and reopening it does not change the lists.

## Findings

| source | as written | input that shows it | evidently intended | confidence | as-written member | corrected member |
|---|---|---|---|---|---|---|
| src/components/DiseaseSearchBar.tsx:66-85 (same code in src/components/SimpleLandingPage.tsx:41-60) | choosing a suggestion sets the term to the record's name and hides the dropdown, but the changed term re-runs the filter effect, which shows the dropdown again, now listing the chosen record | type "diab", then choose "Diabetes Mellitus" | choosing a suggestion closes the dropdown | medium, not executed | `SearchBar.SelectAsWritten` / `SearchBar.SelectAsWrittenReopens` | `SearchBar.Select` |
