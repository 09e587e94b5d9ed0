/**
 * getBotResponse: the dialogue controller. A total function from the current
 * stage (held in the context as a string), the user's input and the progress
 * snapshot to a response descriptor naming the next stage.
 */
module Engine {
  import opened Wrappers
  import opened Text
  import opened Intents
  import opened Validators
  import opened Messages

  datatype Stage = Welcome | RegisterName | RegisterEmail | RegisterPassword | LoginEmail | LoginPassword | MainMenu

  /** The stage's name as the engine writes it in `nextStage`. */
  function StageName(s: Stage): String {
    match s
    case Welcome => "welcome"
    case RegisterName => "register_name"
    case RegisterEmail => "register_email"
    case RegisterPassword => "register_password"
    case LoginEmail => "login_email"
    case LoginPassword => "login_password"
    case MainMenu => "main_menu"
  }

  const StageNames: set<String> :=
    {"welcome", "register_name", "register_email", "register_password", "login_email", "login_password", "main_menu"}

  /** The `currentStage === '…'` tests of getBotResponse. */
  function ParseStage(name: String): Option<Stage> {
    if name == "register_name" then Some(RegisterName)
    else if name == "register_email" then Some(RegisterEmail)
    else if name == "register_password" then Some(RegisterPassword)
    else if name == "login_email" then Some(LoginEmail)
    else if name == "login_password" then Some(LoginPassword)
    else if name == "main_menu" then Some(MainMenu)
    else if name == "welcome" then Some(Welcome)
    else None
  }

  /** Stage names and stages correspond one to one; exactly the seven names are recognised. */
  lemma StageNameRoundTrip(s: Stage, name: String)
    ensures ParseStage(StageName(s)) == Some(s)
    ensures ParseStage(name) == Some(s) <==> name == StageName(s)
    ensures ParseStage(name).Some? <==> name in StageNames
  {
  }

  /** The `action: 'navigate'` / `route` pair. */
  datatype Action = Navigate(route: String)

  /** The descriptor getBotResponse returns; `options` is missing from some replies. */
  datatype Response = Response(
    botMessages: seq<String>,
    options: Option<seq<String>>,
    nextStage: Stage,
    action: Option<Action>)

  /**
   * The context the engine destructures. `email` and `password` are read but
   * never used; `currentStage` may be any string.
   */
  datatype Context = Context(
    currentStage: String,
    userName: Option<String>,
    email: Option<String>,
    password: Option<String>,
    progressData: Option<Progress>)

  /** STAGE_RESPONSES: each entry prompts for its stage and stays in it. */
  function StageResponse(s: Stage): (r: Response)
    ensures r.nextStage == s && r.action == None && |r.botMessages| >= 1
    ensures r.options.Some? <==> s == Welcome || s == MainMenu
  {
    match s
    case Welcome =>
      Response(["Hi! I'm ThinkBot. Welcome to ThinkMLApp.", "Are you a new user or already registered?"],
               Some(["Register", "Login"]), Welcome, None)
    case RegisterName => Response(["What is your name?"], None, RegisterName, None)
    case RegisterEmail => Response(["What is your email?"], None, RegisterEmail, None)
    case RegisterPassword => Response(["Set a password (minimum 6 characters)"], None, RegisterPassword, None)
    case LoginEmail => Response(["Enter your email"], None, LoginEmail, None)
    case LoginPassword => Response(["Enter your password"], None, LoginPassword, None)
    case MainMenu => Response(["What would you like to do today?"], Some(BaseSuggestions), MainMenu, None)
  }

  const NotSureMessage: String := "I'm not sure what you'd like to do. Please select an option:"
  const StartOverMessage: String := "I'm not sure what to do next. Let's start over."

  /** The reply once sign-in completes: the welcome message and the suggestion list. */
  function SignedIn(userName: Option<String>, progress: Option<Progress>): Response {
    Response([WelcomeMessage(userName, progress)], Some(Suggestions(progress)), MainMenu, None)
  }

  /**
   * getBotResponse. A navigation is only ever produced from the main menu, never
   * carries options, and names one of the four routes.
   */
  function GetBotResponse(input: String, context: Context): (r: Response)
    ensures r.action.Some? ==> r.nextStage == MainMenu && r.options == None && r.action.value.route in Routes
  {
    match ParseStage(context.currentStage)
    case Some(RegisterName) =>
      if input != [] && |Trim(input)| > 0 then Response(["What is your email?"], None, RegisterEmail, None)
      else StageResponse(RegisterName)
    case Some(RegisterEmail) =>
      if IsValidEmail(input) then Response(["Set a password (minimum 6 characters)"], None, RegisterPassword, None)
      else Response(["Please enter a valid email address."], None, RegisterEmail, None)
    case Some(RegisterPassword) =>
      // the password just typed is what the welcome message greets the user by
      if IsValidPassword(input) then SignedIn(Some(input), context.progressData)
      else Response(["Password must be at least 6 characters long."], None, RegisterPassword, None)
    case Some(LoginEmail) =>
      if IsValidEmail(input) then Response(["Enter your password"], None, LoginPassword, None)
      else Response(["Please enter a valid email address."], None, LoginEmail, None)
    case Some(LoginPassword) =>
      if input != [] && |input| > 0 then SignedIn(context.userName, context.progressData)
      else Response(["Please enter your password."], None, LoginPassword, None)
    case Some(MainMenu) =>
      (match Detect(input)
       case Some(intent) =>
         RouteInjective(intent, intent);
         Response(["Taking you to the " + Name(intent) + " section..."], None, MainMenu, Some(Navigate(Route(intent))))
       case None => Response([NotSureMessage], Some(Suggestions(context.progressData)), MainMenu, None))
    case Some(Welcome) =>
      if input == "Register" then StageResponse(RegisterName)
      else if input == "Login" then StageResponse(LoginEmail)
      else StageResponse(Welcome)
    case None =>
      Response([StartOverMessage], Some(["Register", "Login"]), Welcome, None)
  }

  /** Every reply names one of the seven stages, and the engine recognises that name on the next turn. */
  lemma StageClosure(input: String, context: Context)
    ensures var next := GetBotResponse(input, context).nextStage;
      StageName(next) in StageNames && ParseStage(StageName(next)) == Some(next)
  {
    StageNameRoundTrip(GetBotResponse(input, context).nextStage, "");
  }

  /** Any unrecognised current stage starts the conversation over. */
  lemma UnknownStageResets(input: String, context: Context)
    requires context.currentStage !in StageNames
    ensures GetBotResponse(input, context) == Response([StartOverMessage], Some(["Register", "Login"]), Welcome, None)
  {
    StageNameRoundTrip(Welcome, context.currentStage);
  }

  /** The five stages that validate one field. */
  predicate IsValidationStage(s: Stage) {
    s != Welcome && s != MainMenu
  }

  /** Whether a validation stage accepts the input, stated without the engine's own tests. */
  ghost predicate Accepts(s: Stage, input: String)
    requires IsValidationStage(s)
  {
    match s
    case RegisterName => !Blank(input)
    case RegisterEmail => MatchesEmailPattern(input)
    case RegisterPassword => |input| >= 6
    case LoginEmail => MatchesEmailPattern(input)
    case LoginPassword => input != []
  }

  /** The two chains register_name → register_email → register_password → main_menu and login_email → login_password → main_menu. */
  function ChainNext(s: Stage): (t: Stage)
    requires IsValidationStage(s)
    ensures t != s
  {
    match s
    case RegisterName => RegisterEmail
    case RegisterEmail => RegisterPassword
    case RegisterPassword => MainMenu
    case LoginEmail => LoginPassword
    case LoginPassword => MainMenu
  }

  /** The corrective message a validation stage repeats on bad input. */
  function Reprompt(s: Stage): String
    requires IsValidationStage(s)
  {
    match s
    case RegisterName => "What is your name?"
    case RegisterEmail => "Please enter a valid email address."
    case RegisterPassword => "Password must be at least 6 characters long."
    case LoginEmail => "Please enter a valid email address."
    case LoginPassword => "Please enter your password."
  }

  /**
   * A validation stage advances along its chain exactly when it accepts the
   * input, and otherwise stays where it is, repeating its corrective message
   * with no options.
   */
  lemma ValidationStep(input: String, context: Context, s: Stage)
    requires IsValidationStage(s) && ParseStage(context.currentStage) == Some(s)
    ensures var r := GetBotResponse(input, context);
      && r.action == None
      && (Accepts(s, input) ==> r.nextStage == ChainNext(s))
      && (!Accepts(s, input) ==> r == Response([Reprompt(s)], None, s, None))
  {
    match s
    case RegisterName => TrimEmptyIffBlank(input);
    case RegisterEmail => EmailIffPattern(input);
    case LoginEmail => EmailIffPattern(input);
    case RegisterPassword =>
    case LoginPassword =>
  }

  /** Hence a validation stage loops on itself exactly when it rejects the input. */
  lemma SelfLoopIffRejected(input: String, context: Context, s: Stage)
    requires IsValidationStage(s) && ParseStage(context.currentStage) == Some(s)
    ensures GetBotResponse(input, context).nextStage == s <==> !Accepts(s, input)
  {
    ValidationStep(input, context, s);
  }

  /** Moving one step along a chain (but not into the menu) shows the next stage's own prompt from STAGE_RESPONSES. */
  lemma AdvanceShowsNextPrompt(input: String, context: Context, s: Stage)
    requires IsValidationStage(s) && ParseStage(context.currentStage) == Some(s)
    requires Accepts(s, input) && ChainNext(s) != MainMenu
    ensures GetBotResponse(input, context) == StageResponse(ChainNext(s))
  {
    ValidationStep(input, context, s);
    match s
    case RegisterName => TrimEmptyIffBlank(input);
    case RegisterEmail => EmailIffPattern(input);
    case LoginEmail => EmailIffPattern(input);
  }

  /**
   * Completing registration greets the user by the password just entered (the
   * input is passed as the user name); completing login greets them by the
   * user name held in the context. Both offer the suggestion list.
   */
  lemma SignInReplies(input: String, context: Context)
    ensures ParseStage(context.currentStage) == Some(RegisterPassword) && |input| >= 6 ==>
      GetBotResponse(input, context) == SignedIn(Some(input), context.progressData)
    ensures ParseStage(context.currentStage) == Some(LoginPassword) && input != [] ==>
      GetBotResponse(input, context) == SignedIn(context.userName, context.progressData)
  {
  }

  /**
   * The main menu never leaves itself. It navigates exactly when an intent is
   * detected, to that intent's route with a message naming it; otherwise it
   * offers the suggestion list.
   */
  lemma MainMenuStays(input: String, context: Context)
    requires ParseStage(context.currentStage) == Some(MainMenu)
    ensures var r := GetBotResponse(input, context);
      && r.nextStage == MainMenu
      && (r.action.Some? <==> Detect(input).Some?)
      && (forall i :: Detect(input) == Some(i) ==>
            r.action == Some(Navigate(Route(i)))
            && r.botMessages == ["Taking you to the " + Name(i) + " section..."]
            && r.options == None)
      && (Detect(input) == None ==>
            r.botMessages == [NotSureMessage] && r.options == Some(Suggestions(context.progressData)))
  {
  }

  /** Only the two password stages and the main menu itself lead into the main menu. */
  lemma MainMenuEntrances(input: String, context: Context)
    requires GetBotResponse(input, context).nextStage == MainMenu
    ensures ParseStage(context.currentStage) in {Some(RegisterPassword), Some(LoginPassword), Some(MainMenu)}
  {
  }

  /** The welcome stage moves on only for the two option labels, and otherwise repeats its greeting. */
  lemma WelcomeChoices(input: String, context: Context)
    requires ParseStage(context.currentStage) == Some(Welcome)
    ensures var r := GetBotResponse(input, context);
      && (r.nextStage == RegisterName <==> input == "Register")
      && (r.nextStage == LoginEmail <==> input == "Login")
      && (input != "Register" && input != "Login" ==> r == StageResponse(Welcome))
      && r == StageResponse(r.nextStage)
  {
  }

  /** The main menu is the only stage every input keeps in place: each other stage has an input that leaves it. */
  lemma OnlyMainMenuIsSteady(context: Context, s: Stage)
    requires ParseStage(context.currentStage) == Some(s) && s != MainMenu
    ensures exists input :: GetBotResponse(input, context).nextStage != s
  {
    var input := LeavingInput(s);
    LeavingInputLeaves(context, s);
  }

  /** An input each stage other than the main menu moves on from. */
  function LeavingInput(s: Stage): String {
    match s
    case Welcome => "Register"
    case RegisterName => "a"
    case RegisterEmail => "a@b.com"
    case LoginEmail => "a@b.com"
    case RegisterPassword => "abcdef"
    case LoginPassword => "x"
    case MainMenu => ""
  }

  lemma LeavingInputLeaves(context: Context, s: Stage)
    requires ParseStage(context.currentStage) == Some(s) && s != MainMenu
    ensures GetBotResponse(LeavingInput(s), context).nextStage != s
  {
    if IsValidationStage(s) {
      ValidatorExamples();
      assert Accepts(s, LeavingInput(s)) by {
        EmailIffPattern("a@b.com");
        assert !Blank("a") by { assert !IsWhitespace("a"[0]); }
      }
      ValidationStep(LeavingInput(s), context, s);
    }
  }

  /** Clicking a base suggestion in the main menu navigates to that section. */
  lemma MenuLabelNavigates(context: Context, i: Intent)
    requires ParseStage(context.currentStage) == Some(MainMenu)
    ensures MenuLabel(i) in BaseSuggestions
    ensures GetBotResponse(MenuLabel(i), context).action == Some(Navigate(Route(i)))
  {
    DetectMenuLabel(i);
  }

  /**
   * The documented registration walk-through, each turn in the stage the
   * previous reply named. The final greeting uses the password as the name.
   */
  lemma RegistrationScenario(context: Context, name: String, email: String, password: String)
    requires context.progressData == None
    requires !Blank(name) && MatchesEmailPattern(email) && |password| >= 6
    ensures GetBotResponse("Register", context.(currentStage := "welcome")) == StageResponse(RegisterName)
    ensures GetBotResponse(name, context.(currentStage := "register_name")) == StageResponse(RegisterEmail)
    ensures GetBotResponse(email, context.(currentStage := "register_email")) == StageResponse(RegisterPassword)
    ensures GetBotResponse(password, context.(currentStage := "register_password"))
      == Response(["Welcome, " + password + "!" + Closing], Some(["Learn", "Quiz", "Project", "Review"]), MainMenu, None)
  {
    ValidationStep(name, context.(currentStage := "register_name"), RegisterName);
    AdvanceShowsNextPrompt(name, context.(currentStage := "register_name"), RegisterName);
    AdvanceShowsNextPrompt(email, context.(currentStage := "register_email"), RegisterEmail);
    GreetingNamesUser(Some(password));
    WelcomeWithoutProgress(Some(password));
    SignInReplies(password, context.(currentStage := "register_password"));
    assert Suggestions(None) == BaseSuggestions;
  }

  /** The walk-through's rejected turns: a malformed email and a five-character password are asked again. */
  lemma RegistrationRetries(context: Context)
    ensures GetBotResponse("bad-email", context.(currentStage := "register_email"))
      == Response(["Please enter a valid email address."], None, RegisterEmail, None)
    ensures GetBotResponse("12345", context.(currentStage := "register_password"))
      == Response(["Password must be at least 6 characters long."], None, RegisterPassword, None)
  {
    var atEmail := context.(currentStage := "register_email");
    var atPassword := context.(currentStage := "register_password");
    assert !MatchesEmailPattern("bad-email") by {
      assert '@' !in "bad-email";
    }
    ValidationStep("bad-email", atEmail, RegisterEmail);
    ValidationStep("12345", atPassword, RegisterPassword);
  }

  /** The login walk-through: the email prompt, the password prompt, then the greeting by the context's user name. */
  lemma LoginScenario(context: Context, email: String, password: String)
    requires MatchesEmailPattern(email) && password != []
    ensures GetBotResponse("Login", context.(currentStage := "welcome")) == StageResponse(LoginEmail)
    ensures GetBotResponse(email, context.(currentStage := "login_email")) == StageResponse(LoginPassword)
    ensures GetBotResponse(password, context.(currentStage := "login_password"))
      == SignedIn(context.userName, context.progressData)
  {
    AdvanceShowsNextPrompt(email, context.(currentStage := "login_email"), LoginEmail);
  }
}
