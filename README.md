# ThinkBot dialogue engine in Dafny

ThinkBot is the chat assistant of ThinkMLApp. Its engine, `src/engine/thinkBotEngine.js`, is a
deterministic state machine. It takes the user's input and a context. The context holds:

- the current stage;
- the user name;
- the learning progress.

From these the engine returns a reply. The reply holds:

- the bot's messages;
- optionally, a list of options;
- the next stage;
- in the main menu, optionally a navigation action.

This project models that engine and proves what it promises.

- `wrappers.dfy`: the `Option` type.
- `text.dfy`: the string primitives the engine relies on.
  - The ECMAScript whitespace set. It is what `\s` matches and what `trim` strips.
  - Lower-casing.
  - Substring search (`includes`).
  - `trim`.
  - Decimal rendering of whole numbers.
- `intents.dfy`: the keyword table `INTENT_KEYWORDS`, the route table `INTENT_ROUTES`, and `detectIntent`.
  - `detectIntent` is modelled as a loop with early return (`DetectIntent`).
  - It is proved equal to a first-match specification (`Detect`).
  - `Detect` is characterised as "the earliest intent in the order learn, quiz, project, review that has a
    keyword in the lower-cased input".
- `validators.dfy`: `isValidEmail` and `isValidPassword`.
  - The email regular expression is modelled by a scan for the first `@` (`IsValidEmail`).
  - The scan is proved equivalent to the regular expression's meaning and to a structural
    description: no whitespace, exactly one `@`, and a dot inside the domain.
- `messages.dfy`: `generateWelcomeMessage` and `generateSuggestions`.
  - Each is a method that mirrors the source's successive `+=` and `unshift` steps.
  - Each is proved equal to a function that states the message or list as a value.
- `engine.dfy`: `STAGE_RESPONSES` and `getBotResponse`, a total function of the input and the context.
  - Lemmas cover stage closure, validation self-loops, the registration and login chains, the main menu
    and the reset on an unknown stage.

JavaScript truthiness is written out explicitly:

- a string field is truthy when it is present and non-empty;
- a number field is truthy when it is present and nonzero;
- a flag is truthy when it is `true`.

Two behaviours of the code are modelled as written:

- When registration completes, the password just entered is passed as the user name to the welcome
  message (`src/engine/thinkBotEngine.js:181`). The greeting therefore names the password
  (`Engine.SignInReplies`, `Engine.RegistrationScenario`).
- A `lastScore` or `streak` of 0 is falsy, so its clause is dropped (`:108`, `:113`).
  `Messages.WelcomeDropsZero` proves this.

`currentStage` is an arbitrary string, as in the source; `ParseStage` recognises the seven stage names.
The reply's `nextStage` is one of the seven `Stage` values. `StageClosure` proves that its name always
parses back to that value.

## Model

| member | source | states |
|---|---|---|
| Intents.Rank | src/engine/thinkBotEngine.js:2-7 | the intents are tried in the table's order learn, quiz, project, review; `Order[Rank(i)] == i` |
| Intents.RouteInjective | src/engine/thinkBotEngine.js:10-15 | every intent's route is one of /learn, /quiz, /projects, /review, and distinct intents have distinct routes |
| Intents.MentionsIffSome | src/engine/thinkBotEngine.js:88 | `keywords.some(k => s.includes(k))` holds exactly when some listed keyword occurs in s |
| Intents.DetectIntent | src/engine/thinkBotEngine.js:84-94 | the loop over the intent table with early return yields exactly the first-match classification `Detect(input)` |
| Intents.FirstMatchIsEarliest | src/engine/thinkBotEngine.js:87-91 | the scan returns intent i exactly when some position p holds i, i's keywords occur, and no earlier intent's keywords occur |
| Intents.FirstMatchNone | src/engine/thinkBotEngine.js:87-93 | the scan returns null exactly when no intent in the order has a keyword in the input |
| Intents.DetectIsFirstIntent | src/engine/thinkBotEngine.js:84-94 | detectIntent returns i exactly when a keyword of i occurs in the lower-cased input and no keyword of any intent ranked before i does |
| Intents.DetectNoneIffNoKeyword | src/engine/thinkBotEngine.js:84-94 | detectIntent returns null exactly when no keyword of any intent occurs in the lower-cased input |
| Intents.QuizBeforeProject | src/engine/thinkBotEngine.js:2-7 | an input that mentions a quiz keyword and no learn keyword is classified quiz, even when it also mentions a project keyword |
| Intents.DetectMenuLabel | src/engine/thinkBotEngine.js:84-94 | each menu label "Learn", "Quiz", "Project", "Review" classifies as the intent it names |
| Intents.DetectLearnLabel | src/engine/thinkBotEngine.js:3 | "Learn" classifies as learn |
| Intents.DetectQuizLabel | src/engine/thinkBotEngine.js:3-4 | "Quiz" classifies as quiz, since no learn keyword occurs in "quiz" |
| Intents.DetectProjectLabel | src/engine/thinkBotEngine.js:3-5 | "Project" classifies as project, since no learn or quiz keyword occurs in "project" |
| Intents.DetectReviewLabel | src/engine/thinkBotEngine.js:3-6 | "Review" classifies as review, since no learn, quiz or project keyword occurs in "review" |
| Text.ToLowerAppend | src/engine/thinkBotEngine.js:85 | lower-casing distributes over concatenation |
| Text.ToLowerNoUpper | src/engine/thinkBotEngine.js:85 | lower-casing leaves a string without capitals unchanged |
| Text.ContainsIffOccurs | src/engine/thinkBotEngine.js:88 | `s.includes(k)` holds exactly when k occurs in s at some index |
| Text.IsPrefixIffSlice | src/engine/thinkBotEngine.js:88 | k is a prefix of s exactly when s's first characters equal k |
| Text.TrimEmptyIffBlank | src/engine/thinkBotEngine.js:156 | trimming yields the empty string exactly when every character is whitespace |
| Text.TrimStartKeeps | src/engine/thinkBotEngine.js:156 | trimming the front of a non-blank string leaves a non-blank string |
| Text.NatToStringValue | src/engine/thinkBotEngine.js:109 | the decimal rendering of a number reads back as that number and has no leading zero unless the number is 0 |
| Validators.EmailIffPattern | src/engine/thinkBotEngine.js:65-68 | isValidEmail holds exactly when the input matches `^[^\s@]+@[^\s@]+\.[^\s@]+$` |
| Validators.EmailIffStructure | src/engine/thinkBotEngine.js:65-68 | isValidEmail holds exactly when the input has no whitespace and exactly one `@`, the local part is non-empty, and the domain has a `.` with a character on each side |
| Validators.IsValidPassword | src/engine/thinkBotEngine.js:75-77 | a password is accepted exactly when it has at least 6 characters |
| Validators.ValidatorExamples | src/engine/thinkBotEngine.js:65-77 | "a@b.com" is a valid email; "abc" and "" are not; "abcde" is rejected as a password and "abcdef" accepted |
| Messages.GenerateWelcomeMessage | src/engine/thinkBotEngine.js:101-123 | appending the clauses one by one yields exactly the greeting, the module, streak and project clauses in that order, and the closing question |
| Messages.GreetingNamesUser | src/engine/thinkBotEngine.js:103 | the greeting is "Welcome, {userName}!" when the name is truthy and "Welcome!" otherwise |
| Messages.WelcomeFrame | src/engine/thinkBotEngine.js:103-121 | every welcome message starts with the greeting and ends with " What would you like to do today?" |
| Messages.WelcomeWithoutProgress | src/engine/thinkBotEngine.js:105-121 | without progress data the message is the greeting followed by the closing question |
| Messages.WelcomeClausePresence | src/engine/thinkBotEngine.js:106-118 | each progress clause is present exactly when its field is truthy, and the score is written inside the module sentence |
| Messages.WelcomeDropsZero | src/engine/thinkBotEngine.js:108-114 | a score or streak of 0 produces the same message as a missing one |
| Messages.WelcomeScoreNeedsModule | src/engine/thinkBotEngine.js:106-112 | without a truthy last module the score never affects the message |
| Messages.WelcomeExample | src/engine/thinkBotEngine.js:101-123 | user "Al" with module "Arrays", score 90 and streak 3 gets the greeting, "with 90%", the 3-day streak sentence and the closing question |
| Messages.GenerateSuggestions | src/engine/thinkBotEngine.js:130-143 | the `unshift` steps on the base list yield exactly the specified suggestion list |
| Messages.SuggestionsShape | src/engine/thinkBotEngine.js:130-143 | the list has 4 to 6 entries and ends with Learn, Quiz, Project, Review; "Continue Project" is present exactly when the project field is truthy; "Continue Learning" is present exactly when the module is truthy and not completed, and is then first; with both, the list is Continue Learning, Continue Project, then the base list |
| Messages.SuggestionsExample | src/engine/thinkBotEngine.js:130-143 | an unfinished module and an incomplete project give the six-entry list in that order |
| Engine.StageNameRoundTrip | src/engine/thinkBotEngine.js:155-241 | the seven stage names parse back to their stages, and no other string parses |
| Engine.StageResponse | src/engine/thinkBotEngine.js:18-58 | each canned reply stays in its own stage, has a message and no action, and carries options exactly for welcome and main_menu |
| Engine.GetBotResponse | src/engine/thinkBotEngine.js:151-257 | a navigation action occurs only in the main menu, without options, and to one of the four routes |
| Engine.StageClosure | src/engine/thinkBotEngine.js:151-257 | every reply's next stage is one of the seven named stages |
| Engine.UnknownStageResets | src/engine/thinkBotEngine.js:251-256 | an unrecognised current stage gives the start-over message, the Register and Login options, and the welcome stage |
| Engine.ChainNext | src/engine/thinkBotEngine.js:155-218 | the stage a validation stage advances to on accepted input is never that stage itself |
| Engine.ValidationStep | src/engine/thinkBotEngine.js:155-218 | in each validation stage, accepted input advances along its chain and rejected input repeats the stage with its fixed corrective message and no options |
| Engine.SelfLoopIffRejected | src/engine/thinkBotEngine.js:155-218 | a validation stage stays where it is exactly when it rejects the input (blank name, invalid email, short password, empty login password) |
| Engine.AdvanceShowsNextPrompt | src/engine/thinkBotEngine.js:155-204 | advancing to the next field shows that stage's own prompt |
| Engine.SignInReplies | src/engine/thinkBotEngine.js:178-218 | finishing registration greets the user by the input just entered; finishing login greets the context's user name; both offer the suggestions |
| Engine.MainMenuStays | src/engine/thinkBotEngine.js:221-238 | the main menu never leaves itself; it navigates exactly when an intent is detected, to that intent's route with "Taking you to the {intent} section..."; otherwise it offers the suggestions |
| Engine.MainMenuEntrances | src/engine/thinkBotEngine.js:178-238 | only the two password stages and the main menu lead into the main menu |
| Engine.WelcomeChoices | src/engine/thinkBotEngine.js:241-249 | in the welcome stage "Register" starts registration, "Login" starts login, and anything else repeats the welcome |
| Engine.OnlyMainMenuIsSteady | src/engine/thinkBotEngine.js:151-257 | from every stage other than the main menu some input leaves the stage |
| Engine.MenuLabelNavigates | src/engine/thinkBotEngine.js:221-231 | clicking a base suggestion in the main menu navigates to the route of the intent it names |
| Engine.RegistrationScenario | src/engine/thinkBotEngine.js:155-190 | Register, a non-blank name, a valid email and a password of 6 or more characters lead through the chain to the main menu, with a welcome that names the password and the base suggestions |
| Engine.RegistrationRetries | src/engine/thinkBotEngine.js:165-190 | "bad-email" repeats the email stage with its correction, and "12345" repeats the password stage with its correction |
| Engine.LoginScenario | src/engine/thinkBotEngine.js:193-218 | Login, a valid email and a non-empty password lead to the main menu, greeting the context's user name |

## Left out

- The React chat component (`src/components/ThinkBot.jsx`) is not part of this model. That covers its hook state, its HTTP calls to the backend, its navigation and its own parallel identifier flow. Its bubble rendering and the router wiring (`ChatBubble.jsx`, `App.js`) are left out too. All of it is I/O or rendering around the engine.
- The Flask backend (`backend/app.py`) is not part of this model. It is database I/O and a foreign hash call. Its length check repeats the engine's password rule.
- `Text.ToLower`: only ASCII capitals are lowered. JavaScript's `toLowerCase` also maps non-ASCII letters.
- String length is the number of `char`s, not the number of UTF-16 code units.
- `Text.NatToString`: scores and streaks are whole numbers rendered in decimal. Fractional or negative scores, and JavaScript's number formatting for them, are not modelled.
- Engine.GetBotResponse: the `email` and `password` fields of the context are carried but never read, as in the source. A host adopting `nextStage` as its next `currentStage` is not modelled.
- The sentence "I want to build a quiz project" is not evaluated literally. Its classification is covered by `Intents.QuizBeforeProject` for every input that mentions a quiz keyword but no learn keyword.
- The registration and login walk-throughs are proved for all names, valid emails and passwords rather than for fixed sample strings.
