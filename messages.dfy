/**
 * generateWelcomeMessage and generateSuggestions: the text the bot shows once
 * the user is signed in, built from the user's progress snapshot.
 */
module Messages {
  import opened Wrappers
  import opened Text

  /**
   * The progress snapshot supplied from outside the engine. Every field may be
   * missing; scores and streaks are whole numbers.
   */
  datatype Progress = Progress(
    lastModule: Option<String>,
    lastScore: Option<nat>,
    lastModuleCompleted: Option<bool>,
    streak: Option<nat>,
    incompleteProject: Option<String>)

  /** JavaScript truthiness of an optional string: present and non-empty. */
  predicate TruthyText(o: Option<String>) {
    o.Some? && o.value != []
  }

  /** JavaScript truthiness of an optional number: present and non-zero. */
  predicate TruthyNumber(o: Option<nat>) {
    o.Some? && o.value != 0
  }

  /** JavaScript truthiness of an optional boolean. */
  predicate TruthyFlag(o: Option<bool>) {
    o == Some(true)
  }

  const Closing: String := " What would you like to do today?"

  /** `Welcome${userName ? `, ${userName}` : ''}!` */
  function Greeting(userName: Option<String>): String {
    "Welcome" + (if TruthyText(userName) then ", " + userName.value else "") + "!"
  }

  /** The "last completed" sentence, with its score inside it. */
  function ModuleClause(p: Progress): String {
    if TruthyText(p.lastModule) then
      " You last completed the " + p.lastModule.value
      + (if TruthyNumber(p.lastScore) then " with " + NatToString(p.lastScore.value) + "%" else "")
      + "."
    else ""
  }

  function StreakClause(p: Progress): String {
    if TruthyNumber(p.streak) then " You're on a " + NatToString(p.streak.value) + "-day learning streak!" else ""
  }

  function ProjectClause(p: Progress): String {
    if TruthyText(p.incompleteProject) then " Ready to continue your project on " + p.incompleteProject.value + "?" else ""
  }

  function ProgressClauses(progress: Option<Progress>): String {
    match progress
    case None => ""
    case Some(p) => ModuleClause(p) + StreakClause(p) + ProjectClause(p)
  }

  /** The welcome message as a value: the greeting, the progress clauses in order, the closing question. */
  function WelcomeMessage(userName: Option<String>, progress: Option<Progress>): String {
    Greeting(userName) + ProgressClauses(progress) + Closing
  }

  /** generateWelcomeMessage: appends one clause at a time to `message`. */
  method GenerateWelcomeMessage(userName: Option<String>, progress: Option<Progress>) returns (message: String)
    ensures message == WelcomeMessage(userName, progress)
  {
    message := "Welcome" + (if TruthyText(userName) then ", " + userName.value else "") + "!";
    if progress.Some? {
      var p := progress.value;
      ghost var greeting := message;
      if TruthyText(p.lastModule) {
        message := message + " You last completed the " + p.lastModule.value;
        if TruthyNumber(p.lastScore) {
          message := message + " with " + NatToString(p.lastScore.value) + "%";
        }
        message := message + ".";
      }
      ghost var afterModule := message;
      if TruthyNumber(p.streak) {
        message := message + " You're on a " + NatToString(p.streak.value) + "-day learning streak!";
      }
      ghost var afterStreak := message;
      if TruthyText(p.incompleteProject) {
        message := message + " Ready to continue your project on " + p.incompleteProject.value + "?";
      }
      ModuleClauseAppended(greeting, p, afterModule);
      StreakClauseAppended(afterModule, p, afterStreak);
      ProjectClauseAppended(afterStreak, p, message);
      Assoc3(greeting, ModuleClause(p), StreakClause(p), ProjectClause(p));
      assert message == greeting + ProgressClauses(progress);
    }
    message := message + Closing;
  }

  lemma ModuleClauseAppended(before: String, p: Progress, after: String)
    requires TruthyText(p.lastModule) ==>
      after == before + " You last completed the " + p.lastModule.value
        + (if TruthyNumber(p.lastScore) then " with " + NatToString(p.lastScore.value) + "%" else "") + "."
    requires !TruthyText(p.lastModule) ==> after == before
    ensures after == before + ModuleClause(p)
  {
    if TruthyText(p.lastModule) {
      var v := p.lastModule.value;
      var sc := if TruthyNumber(p.lastScore) then " with " + NatToString(p.lastScore.value) + "%" else "";
      Assoc4(before, " You last completed the ", v, sc, ".");
    }
  }

  lemma StreakClauseAppended(before: String, p: Progress, after: String)
    requires TruthyNumber(p.streak) ==> after == before + " You're on a " + NatToString(p.streak.value) + "-day learning streak!"
    requires !TruthyNumber(p.streak) ==> after == before
    ensures after == before + StreakClause(p)
  {
    if TruthyNumber(p.streak) {
      Assoc3(before, " You're on a ", NatToString(p.streak.value), "-day learning streak!");
    }
  }

  lemma ProjectClauseAppended(before: String, p: Progress, after: String)
    requires TruthyText(p.incompleteProject) ==> after == before + " Ready to continue your project on " + p.incompleteProject.value + "?"
    requires !TruthyText(p.incompleteProject) ==> after == before
    ensures after == before + ProjectClause(p)
  {
    if TruthyText(p.incompleteProject) {
      Assoc3(before, " Ready to continue your project on ", p.incompleteProject.value, "?");
    }
  }

  lemma Assoc3(a: String, b: String, c: String, d: String)
    ensures a + b + c + d == a + (b + c + d)
  {
  }

  lemma Assoc4(a: String, b: String, c: String, d: String, e: String)
    ensures a + b + c + d + e == a + (b + c + d + e)
  {
  }

  /** The greeting names the user exactly when the name is truthy. */
  lemma GreetingNamesUser(userName: Option<String>)
    ensures TruthyText(userName) ==> Greeting(userName) == "Welcome, " + userName.value + "!"
    ensures !TruthyText(userName) ==> Greeting(userName) == "Welcome!"
  {
  }

  /** Every welcome message opens with the greeting and ends with the closing question. */
  lemma WelcomeFrame(userName: Option<String>, progress: Option<Progress>)
    ensures WelcomeMessage(userName, progress)[..|Greeting(userName)|] == Greeting(userName)
    ensures var m := WelcomeMessage(userName, progress); m[|m| - |Closing|..] == Closing
  {
    PrefixSuffix(Greeting(userName), ProgressClauses(progress), Closing);
  }

  lemma PrefixSuffix(a: String, b: String, c: String)
    ensures (a + b + c)[..|a|] == a
    ensures (a + b + c)[|a + b + c| - |c|..] == c
  {
  }

  /** With no progress snapshot the message is just the greeting and the closing question. */
  lemma WelcomeWithoutProgress(userName: Option<String>)
    ensures WelcomeMessage(userName, None) == Greeting(userName) + Closing
  {
  }


  /** Each progress clause is present exactly when its field is truthy, and the score appears only inside the module clause. */
  lemma WelcomeClausePresence(p: Progress)
    ensures ModuleClause(p) != [] <==> TruthyText(p.lastModule)
    ensures StreakClause(p) != [] <==> TruthyNumber(p.streak)
    ensures ProjectClause(p) != [] <==> TruthyText(p.incompleteProject)
    ensures TruthyText(p.lastModule) && TruthyNumber(p.lastScore) ==>
      ModuleClause(p) == " You last completed the " + p.lastModule.value + " with " + NatToString(p.lastScore.value) + "%."
  {
    if TruthyText(p.lastModule) && TruthyNumber(p.lastScore) {
      var m := " You last completed the " + p.lastModule.value;
      var pct := " with " + NatToString(p.lastScore.value) + "%";
      assert m + pct + "." == m + (pct + ".");
    }
  }

  /** A score or streak of 0 is falsy: the message is the one with that field missing. */
  lemma WelcomeDropsZero(userName: Option<String>, p: Progress)
    ensures WelcomeMessage(userName, Some(p.(lastScore := Some(0)))) == WelcomeMessage(userName, Some(p.(lastScore := None)))
    ensures WelcomeMessage(userName, Some(p.(streak := Some(0)))) == WelcomeMessage(userName, Some(p.(streak := None)))
  {
  }

  /** The score is shown only inside the "last completed" sentence: without a module it has no effect. */
  lemma WelcomeScoreNeedsModule(userName: Option<String>, p: Progress, score: Option<nat>)
    requires !TruthyText(p.lastModule)
    ensures WelcomeMessage(userName, Some(p.(lastScore := score))) == WelcomeMessage(userName, Some(p))
  {
  }

  /** The documented example: name, module, score and streak. */
  lemma WelcomeExample()
    ensures WelcomeMessage(Some("Al"), Some(Progress(Some("Arrays"), Some(90), None, Some(3), None)))
      == "Welcome, Al!" + " You last completed the Arrays with 90%." + " You're on a 3-day learning streak!"
         + " What would you like to do today?"
  {
    var p := Progress(Some("Arrays"), Some(90), None, Some(3), None);
    ExampleClauses(p);
    assert Greeting(Some("Al")) == "Welcome, Al!";
    assert ProgressClauses(Some(p)) == ModuleClause(p) + StreakClause(p);
  }

  lemma ExampleClauses(p: Progress)
    requires p == Progress(Some("Arrays"), Some(90), None, Some(3), None)
    ensures ModuleClause(p) == " You last completed the Arrays with 90%."
    ensures StreakClause(p) == " You're on a 3-day learning streak!"
    ensures ProjectClause(p) == ""
  {
    ExampleModuleClause(p);
    assert NatToString(3) == "3";
  }

  lemma ExampleModuleClause(p: Progress)
    requires p == Progress(Some("Arrays"), Some(90), None, Some(3), None)
    ensures ModuleClause(p) == " You last completed the Arrays with 90%."
  {
    ExampleNumbers();
  }

  lemma ExampleNumbers()
    ensures NatToString(90) == "90"
  {
    assert NatToString(9) == "9";
  }

  /** The menu entries every suggestion list ends with. */
  const BaseSuggestions: seq<String> := ["Learn", "Quiz", "Project", "Review"]

  predicate OffersContinueProject(progress: Option<Progress>) {
    progress.Some? && TruthyText(progress.value.incompleteProject)
  }

  predicate OffersContinueLearning(progress: Option<Progress>) {
    progress.Some? && TruthyText(progress.value.lastModule) && !TruthyFlag(progress.value.lastModuleCompleted)
  }

  /** The suggestion list as a value: optional entries in front of the base list. */
  function Suggestions(progress: Option<Progress>): seq<String> {
    (if OffersContinueLearning(progress) then ["Continue Learning"] else [])
    + (if OffersContinueProject(progress) then ["Continue Project"] else [])
    + BaseSuggestions
  }

  /** generateSuggestions: starts from the base list and `unshift`s entries onto its front. */
  method GenerateSuggestions(progress: Option<Progress>) returns (suggestions: seq<String>)
    ensures suggestions == Suggestions(progress)
  {
    suggestions := ["Learn", "Quiz", "Project", "Review"];
    if progress.Some? {
      if TruthyText(progress.value.incompleteProject) {
        suggestions := ["Continue Project"] + suggestions;
      }
      if TruthyText(progress.value.lastModule) && !TruthyFlag(progress.value.lastModuleCompleted) {
        suggestions := ["Continue Learning"] + suggestions;
      }
    }
  }

  /**
   * The suggestion list ends with the base list, has 4 to 6 entries, offers
   * "Continue Project" exactly for a truthy unfinished project and "Continue
   * Learning" exactly for a truthy, not completed module, the latter always first.
   */
  lemma SuggestionsShape(progress: Option<Progress>)
    ensures var r := Suggestions(progress);
      && 4 <= |r| <= 6
      && r[|r| - 4..] == BaseSuggestions
      && ("Continue Project" in r <==> OffersContinueProject(progress))
      && ("Continue Learning" in r <==> OffersContinueLearning(progress))
      && (OffersContinueLearning(progress) ==> r[0] == "Continue Learning")
      && (OffersContinueProject(progress) && !OffersContinueLearning(progress) ==> r[0] == "Continue Project")
      && (OffersContinueLearning(progress) && OffersContinueProject(progress) ==>
            r == ["Continue Learning", "Continue Project"] + BaseSuggestions)
  {
    var r := Suggestions(progress);
    assert "Continue Project" !in BaseSuggestions;
    assert "Continue Learning" !in BaseSuggestions;
    if OffersContinueLearning(progress) && !OffersContinueProject(progress) {
      assert "Continue Project" !in r by { assert r == ["Continue Learning"] + BaseSuggestions; }
    }
    if !OffersContinueLearning(progress) && OffersContinueProject(progress) {
      assert "Continue Learning" !in r by { assert r == ["Continue Project"] + BaseSuggestions; }
    }
  }

  /** The documented example: an unfinished project and an uncompleted module. */
  lemma SuggestionsExample()
    ensures Suggestions(Some(Progress(Some("Y"), None, Some(false), None, Some("X"))))
      == ["Continue Learning", "Continue Project", "Learn", "Quiz", "Project", "Review"]
  {
  }
}
