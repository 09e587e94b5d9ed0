/**
 * The intent classifier: the keyword table INTENT_KEYWORDS, the route table
 * INTENT_ROUTES and detectIntent, which returns the first intent (in table
 * order) one of whose keywords occurs in the lower-cased input.
 */
module Intents {
  import opened Wrappers
  import opened Text

  datatype Intent = Learn | Quiz | Project | Review

  /** The iteration order of INTENT_KEYWORDS; the first intent that matches wins. */
  const Order: seq<Intent> := [Learn, Quiz, Project, Review]

  /** Position of an intent in Order. */
  function Rank(i: Intent): (n: nat)
    ensures n < |Order| && Order[n] == i
  {
    match i
    case Learn => 0
    case Quiz => 1
    case Project => 2
    case Review => 3
  }

  /** The intent's key in INTENT_KEYWORDS, also used in the navigation message. */
  function Name(i: Intent): String {
    match i
    case Learn => "learn"
    case Quiz => "quiz"
    case Project => "project"
    case Review => "review"
  }

  function Keywords(i: Intent): seq<String> {
    match i
    case Learn => ["learn", "study", "tutorial", "course", "education", "training", "understand"]
    case Quiz => ["quiz", "test", "exam", "assessment", "practice", "question", "challenge"]
    case Project => ["project", "build", "create", "develop", "implement", "work on", "assignment"]
    case Review => ["review", "recap", "revisit", "go over", "summary", "revision", "recall"]
  }

  /** INTENT_ROUTES. */
  function Route(i: Intent): String {
    match i
    case Learn => "/learn"
    case Quiz => "/quiz"
    case Project => "/projects"
    case Review => "/review"
  }

  /** The four routes a navigation can name. */
  const Routes: set<String> := {"/learn", "/quiz", "/projects", "/review"}

  /** Distinct intents have distinct routes, and every route is one of Routes. */
  lemma RouteInjective(i: Intent, j: Intent)
    ensures Route(i) in Routes
    ensures Route(i) == Route(j) <==> i == j
  {
  }

  /** `keywords.some(keyword => s.includes(keyword))`, tried in list order. */
  predicate Mentions(s: String, keywords: seq<String>) {
    keywords != [] && (Contains(s, keywords[0]) || Mentions(s, keywords[1..]))
  }

  lemma {:induction false} MentionsIffSome(s: String, keywords: seq<String>)
    ensures Mentions(s, keywords) <==> exists j :: 0 <= j < |keywords| && Contains(s, keywords[j])
  {
    if keywords != [] {
      MentionsIffSome(s, keywords[1..]);
      if Mentions(s, keywords[1..]) {
        var j :| 0 <= j < |keywords[1..]| && Contains(s, keywords[1..][j]);
        assert Contains(s, keywords[j + 1]);
      }
    }
  }

  /** No keyword occurs when each one holds a character (`missing[j]` for `keywords[j]`) that s lacks. */
  lemma {:induction false} NotMentioned(s: String, keywords: seq<String>, missing: String)
    requires |missing| == |keywords|
    requires forall j :: 0 <= j < |keywords| ==> missing[j] in keywords[j] && missing[j] !in s
    ensures !Mentions(s, keywords)
  {
    if keywords != [] {
      MissingCharNotContained(s, keywords[0], missing[0]);
      NotMentioned(s, keywords[1..], missing[1..]);
    }
  }

  /** The j-th keyword occurring at index i makes the list mentioned. */
  lemma {:induction false} MentionedAt(s: String, keywords: seq<String>, j: nat, i: nat)
    requires j < |keywords| && OccursAt(s, keywords[j], i)
    ensures Mentions(s, keywords)
  {
    if j == 0 {
      OccursContains(s, keywords[0], i);
    } else {
      MentionedAt(s, keywords[1..], j - 1, i);
    }
  }

  /** Some intent of `order` (taken in turn) whose keywords occur in s. */
  function FirstMatch(s: String, order: seq<Intent>): Option<Intent> {
    if order == [] then None
    else if Mentions(s, Keywords(order[0])) then Some(order[0])
    else FirstMatch(s, order[1..])
  }

  /** detectIntent as a value: what the loop in DetectIntent returns. */
  function Detect(input: String): Option<Intent> {
    FirstMatch(ToLower(input), Order)
  }

  /** detectIntent: walks the intents in table order and returns at the first match. */
  method DetectIntent(input: String) returns (intent: Option<Intent>)
    ensures intent == Detect(input)
  {
    var normalized := ToLower(input);
    var n := 0;
    while n < |Order|
      invariant 0 <= n <= |Order|
      invariant FirstMatch(normalized, Order) == FirstMatch(normalized, Order[n..])
    {
      if Mentions(normalized, Keywords(Order[n])) {
        return Some(Order[n]);
      }
      n := n + 1;
    }
    return None;
  }

  /** FirstMatch picks the earliest element of `order` that matches. */
  lemma {:induction false} FirstMatchIsEarliest(s: String, order: seq<Intent>, i: Intent)
    ensures FirstMatch(s, order) == Some(i) <==>
      exists p :: 0 <= p < |order| && order[p] == i && Mentions(s, Keywords(i))
        && forall q :: 0 <= q < p ==> !Mentions(s, Keywords(order[q]))
  {
    if order != [] {
      FirstMatchIsEarliest(s, order[1..], i);
      var m := Mentions(s, Keywords(order[0]));
      if FirstMatch(s, order) == Some(i) {
        if !m {
          var p :| 0 <= p < |order[1..]| && order[1..][p] == i && Mentions(s, Keywords(i))
            && forall q :: 0 <= q < p ==> !Mentions(s, Keywords(order[1..][q]));
          assert forall q :: 0 <= q < p + 1 ==> !Mentions(s, Keywords(order[q])) by {
            forall q | 0 <= q < p + 1 ensures !Mentions(s, Keywords(order[q])) {
              if q > 0 { assert order[q] == order[1..][q - 1]; }
            }
          }
          assert order[p + 1] == i;
        } else {
          assert order[0] == i;
        }
      } else {
        forall p | 0 <= p < |order| && order[p] == i && Mentions(s, Keywords(i))
          ensures exists q :: 0 <= q < p && Mentions(s, Keywords(order[q]))
        {
          if p == 0 {
            assert false;
          } else if m {
            assert Mentions(s, Keywords(order[0]));
          } else {
            assert order[1..][p - 1] == i;
            var q :| 0 <= q < p - 1 && Mentions(s, Keywords(order[1..][q]));
            assert Mentions(s, Keywords(order[q + 1]));
          }
        }
      }
    }
  }

  /** FirstMatch finds nothing only when no intent of `order` matches. */
  lemma {:induction false} FirstMatchNone(s: String, order: seq<Intent>)
    ensures FirstMatch(s, order) == None <==> forall p :: 0 <= p < |order| ==> !Mentions(s, Keywords(order[p]))
  {
    if order != [] {
      FirstMatchNone(s, order[1..]);
      if FirstMatch(s, order) == None {
        forall p | 0 <= p < |order| ensures !Mentions(s, Keywords(order[p])) {
          if p > 0 { assert order[p] == order[1..][p - 1]; }
        }
      }
    }
  }

  /**
   * detectIntent returns intent i exactly when the lower-cased input mentions a
   * keyword of i and no keyword of any intent listed before i.
   */
  lemma DetectIsFirstIntent(input: String, i: Intent)
    ensures Detect(input) == Some(i) <==>
      Mentions(ToLower(input), Keywords(i))
      && forall j: Intent :: Rank(j) < Rank(i) ==> !Mentions(ToLower(input), Keywords(j))
  {
    var s := ToLower(input);
    match Detect(input)
    case None =>
      FirstMatchNone(s, Order);
      assert Order[Rank(i)] == i;
    case Some(k) =>
      FirstMatchIsEarliest(s, Order, k);
      var p :| 0 <= p < |Order| && Order[p] == k && Mentions(s, Keywords(k))
        && forall q :: 0 <= q < p ==> !Mentions(s, Keywords(Order[q]));
      assert p == Rank(k);
      forall j: Intent | Rank(j) < Rank(k) ensures !Mentions(s, Keywords(j)) {
        assert Order[Rank(j)] == j;
      }
  }

  /** detectIntent returns null exactly when no keyword of any intent occurs. */
  lemma DetectNoneIffNoKeyword(input: String)
    ensures Detect(input) == None <==> forall i: Intent :: !Mentions(ToLower(input), Keywords(i))
  {
    var s := ToLower(input);
    if Detect(input) == None {
      FirstMatchNone(s, Order);
      forall i: Intent ensures !Mentions(s, Keywords(i)) {
        assert Order[Rank(i)] == i;
      }
    } else {
      var i := Detect(input).value;
      DetectIsFirstIntent(input, i);
    }
  }

  /**
   * The tie-break: an input that mentions a quiz keyword and no learn keyword is
   * classified as quiz, whatever project or review keywords it also holds.
   */
  lemma QuizBeforeProject(input: String)
    requires Mentions(ToLower(input), Keywords(Quiz))
    requires !Mentions(ToLower(input), Keywords(Learn))
    ensures Detect(input) == Some(Quiz)
  {
    DetectIsFirstIntent(input, Quiz);
  }

  /** The main-menu option that names an intent. */
  function MenuLabel(i: Intent): String {
    match i
    case Learn => "Learn"
    case Quiz => "Quiz"
    case Project => "Project"
    case Review => "Review"
  }

  /** Each main-menu option classifies as the intent it names. */
  lemma DetectMenuLabel(i: Intent)
    ensures Detect(MenuLabel(i)) == Some(i)
  {
    match i
    case Learn => DetectLearnLabel();
    case Quiz => DetectQuizLabel();
    case Project => DetectProjectLabel();
    case Review => DetectReviewLabel();
  }

  /*
   * The menu labels classify as the intents they name. Each fact about a
   * literal string is a lemma of its own, which keeps every proof small.
   */
  lemma DetectLearnLabel()
    ensures Detect("Learn") == Some(Learn)
  {
    assert ToLower("Learn") == "learn";
    MentionedAt("learn", Keywords(Learn), 0, 0);
  }

  lemma DetectQuizLabel()
    ensures Detect("Quiz") == Some(Quiz)
  {
    assert ToLower("Quiz") == "quiz";
    QuizLabelMisses(Learn);
    QuizLabelHits();
  }

  lemma QuizLabelMisses(i: Intent)
    requires i == Learn
    ensures !Mentions("quiz", Keywords(i))
  {
    NotMentioned("quiz", Keywords(Learn), "lsaceat");
  }

  lemma QuizLabelHits()
    ensures Mentions("quiz", Keywords(Quiz))
  {
    MentionedAt("quiz", Keywords(Quiz), 0, 0);
  }

  lemma DetectProjectLabel()
    ensures Detect("Project") == Some(Project)
  {
    assert ToLower("Project") == "project";
    ProjectLabelMisses(Learn);
    ProjectLabelMisses(Quiz);
    ProjectLabelHits();
  }

  lemma ProjectLabelMisses(i: Intent)
    requires Rank(i) < Rank(Project)
    ensures !Mentions("project", Keywords(i))
  {
    match i
    case Learn => NotMentioned("project", Keywords(Learn), "lsasdad");
    case Quiz => NotMentioned("project", Keywords(Quiz), "qsxaaqh");
  }

  lemma ProjectLabelHits()
    ensures Mentions("project", Keywords(Project))
  {
    MentionedAt("project", Keywords(Project), 0, 0);
  }

  lemma DetectReviewLabel()
    ensures Detect("Review") == Some(Review)
  {
    assert ToLower("Review") == "review";
    ReviewLabelMisses(Learn);
    ReviewLabelMisses(Quiz);
    ReviewLabelMisses(Project);
    ReviewLabelHits();
  }

  lemma ReviewLabelMisses(i: Intent)
    requires Rank(i) < Rank(Review)
    ensures !Mentions("review", Keywords(i))
  {
    match i
    case Learn => NotMentioned("review", Keywords(Learn), "lstcdtd");
    case Quiz => NotMentioned("review", Keywords(Quiz), "qtxapqc");
    case Project => NotMentioned("review", Keywords(Project), "pbcdmka");
  }

  lemma ReviewLabelHits()
    ensures Mentions("review", Keywords(Review))
  {
    MentionedAt("review", Keywords(Review), 0, 0);
  }
}
