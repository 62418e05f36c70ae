/** lib/apply-flow.ts: which screens an applicant sees, what each needs, and what the server then asks for. */
module ApplyFlow {
  import opened Options
  import opened Texts

  datatype Key =
    | FullName | Age | Grade | School | City | Country | Phone | ParentEmail | WhyJoin | StartupIdea | Experience
    | HoursPerWeek | TeamSize | ReferralSource | LinkedinUrl | ResumeUrl | PortfolioUrl

  /** The built-in questions, in the order of QUESTION_FIELDS. */
  const QUESTION_FIELDS: seq<Key> := [
    FullName, Age, Grade, School, City, Country, Phone, ParentEmail, Experience, HoursPerWeek, ReferralSource,
    LinkedinUrl, ResumeUrl, PortfolioUrl, WhyJoin, StartupIdea, TeamSize]

  type Form = map<Key, Text>

  function Get(form: Form, key: Key): Text { if key in form then form[key] else [] }

  datatype Question = Question(required: bool, hidden: bool)

  type Config = map<Key, Question>

  datatype Custom = Custom(id: Text, hidden: bool)

  datatype Screen =
    | Welcome
    | PickCohort
    | Field(key: Key)
    | Location
    | Links
    | Extra(prefix: Text, question: Custom, intro: bool)
    | Review

  const LOCATION_KEYS := [City, Country]
  const LINK_KEYS := [LinkedinUrl, ResumeUrl, PortfolioUrl]
  const WHY_MIN := 40

  predicate IsRequiredCore(key: Key) { key.FullName? || key.Age? || key.Phone? || key.WhyJoin? || key.TeamSize? }

  predicate IsVisible(cfg: Config, key: Key) { IsRequiredCore(key) || !(key in cfg && cfg[key].hidden) }

  predicate IsRequired(cfg: Config, key: Key) { IsRequiredCore(key) || (key in cfg && cfg[key].required) }

  predicate Blank(v: Text) { Trim(v) == [] }

  /** Number.parseInt(s, 10): white space, a sign, and as many digits as follow. */
  function ParseInt(s: Text): Option<int> {
    var t := TrimStart(s);
    if t != [] && (t[0] == DASH || t[0] == PLUS) then
      var n := Digits(t[1..], None);
      if n.Some? && t[0] == DASH then Some(-n.value) else n
    else Digits(t, None)
  }

  function Digits(s: Text, sofar: Option<int>): Option<int> {
    if s == [] || !IsDigit(s[0]) then sofar
    else Digits(s[1..], Some((if sofar.Some? then sofar.value else 0) * 10 + (s[0] - 48)))
  }

  predicate AllDigits(s: Text) { s != [] && forall k :: 0 <= k < |s| ==> IsDigit(s[k]) }

  predicate IsMinor(age: Text) { ParseInt(age).Some? && ParseInt(age).value < 18 }

  predicate AsksParentEmail(cfg: Config, form: Form) {
    IsMinor(Get(form, Age)) || (IsVisible(cfg, ParentEmail) && IsRequired(cfg, ParentEmail))
  }

  // ---------------------------------------------------------------------------------------------
  // Screens
  // ---------------------------------------------------------------------------------------------

  datatype Args = Args(cfg: Config, customs: seq<Custom>, scholarships: seq<Custom>, customPrefix: Text, scholarshipPrefix: Text,
                       chooseCohort: bool, form: Form)

  predicate AnyVisible(cfg: Config, keys: seq<Key>) { exists k :: 0 <= k < |keys| && IsVisible(cfg, keys[k]) }

  function Push(out: seq<Screen>, shown: bool, s: Screen): seq<Screen> { if shown then out + [s] else out }

  function PushField(out: seq<Screen>, cfg: Config, key: Key): seq<Screen> { Push(out, IsVisible(cfg, key), Field(key)) }

  /** Who the applicant is. */
  function AboutScreens(a: Args): seq<Screen> {
    var s1 := Push([Welcome], a.chooseCohort, PickCohort);
    var s2 := PushField(PushField(s1, a.cfg, FullName), a.cfg, Age);
    var s3 := Push(s2, AsksParentEmail(a.cfg, a.form), Field(ParentEmail));
    var s4 := PushField(PushField(PushField(s3, a.cfg, Phone), a.cfg, Grade), a.cfg, School);
    Push(s4, AnyVisible(a.cfg, LOCATION_KEYS), Location)
  }

  /** Then the idea, and the background. */
  function BuiltInScreens(a: Args): seq<Screen> {
    var s5 := PushField(PushField(PushField(AboutScreens(a), a.cfg, WhyJoin), a.cfg, StartupIdea), a.cfg, TeamSize);
    var s6 := PushField(PushField(s5, a.cfg, Experience), a.cfg, HoursPerWeek);
    PushField(Push(s6, AnyVisible(a.cfg, LINK_KEYS), Links), a.cfg, ReferralSource)
  }

  function CustomScreens(prefix: Text, questions: seq<Custom>): seq<Screen> {
    if questions == [] then [] else
      var front, last := CustomScreens(prefix, questions[..|questions| - 1]), questions[|questions| - 1];
      if last.hidden then front else front + [Extra(prefix, last, false)]
  }

  /** The scholarship block: its first screen carries the explainer. */
  function ScholarshipScreens(prefix: Text, questions: seq<Custom>): seq<Screen> {
    if questions == [] then [] else
      var front, last := ScholarshipScreens(prefix, questions[..|questions| - 1]), questions[|questions| - 1];
      if last.hidden then front else front + [Extra(prefix, last, front == [])]
  }

  function Screens(a: Args): seq<Screen> {
    BuiltInScreens(a) + CustomScreens(a.customPrefix, a.customs) + ScholarshipScreens(a.scholarshipPrefix, a.scholarships)
        + [Review]
  }

  /** The question is asked: it is on the form, or it is the parent's email and a minor applies. */
  predicate Asked(a: Args, key: Key) { if key.ParentEmail? then AsksParentEmail(a.cfg, a.form) else IsVisible(a.cfg, key) }

  ghost predicate HasScreen(screens: seq<Screen>, cfg: Config, key: Key) { exists s :: s in screens && Checks(s, cfg, key) }

  /** The screens from the welcome to the review: each question that is asked is on one, and no other is. */
  method BuildScreens(a: Args) returns (out: seq<Screen>)
    ensures out == Screens(a)
    ensures |out| >= 2 && out[0] == Welcome && out[|out| - 1] == Review
    ensures forall key :: HasScreen(out, a.cfg, key) <==> Asked(a, key)
  {
    hide HasScreen, Asked;
    hide AsksParentEmail, AnyVisible, IsVisible;
    out := [Welcome];
    if a.chooseCohort { out := out + [PickCohort]; }
    out := PushField(out, a.cfg, FullName);
    out := PushField(out, a.cfg, Age);
    if AsksParentEmail(a.cfg, a.form) { out := out + [Field(ParentEmail)]; }
    out := PushField(out, a.cfg, Phone);
    out := PushField(out, a.cfg, Grade);
    out := PushField(out, a.cfg, School);
    if AnyVisible(a.cfg, LOCATION_KEYS) { out := out + [Location]; }
    assert out == AboutScreens(a);
    hide AboutScreens;
    out := PushField(out, a.cfg, WhyJoin);
    out := PushField(out, a.cfg, StartupIdea);
    out := PushField(out, a.cfg, TeamSize);
    out := PushField(out, a.cfg, Experience);
    out := PushField(out, a.cfg, HoursPerWeek);
    if AnyVisible(a.cfg, LINK_KEYS) { out := out + [Links]; }
    out := PushField(out, a.cfg, ReferralSource);
    assert out == BuiltInScreens(a);
    hide BuiltInScreens, Push, PushField;
    ghost var builtIn := out;
    var i := 0;
    while i < |a.customs|
      invariant 0 <= i <= |a.customs| && out == builtIn + CustomScreens(a.customPrefix, a.customs[..i])
    {
      assert a.customs[..i + 1][..i] == a.customs[..i];
      if !a.customs[i].hidden { out := out + [Extra(a.customPrefix, a.customs[i], false)]; }
      i := i + 1;
    }
    assert a.customs[..i] == a.customs;
    ghost var before := out;
    var first := true;
    i := 0;
    while i < |a.scholarships|
      invariant 0 <= i <= |a.scholarships| && out == before + ScholarshipScreens(a.scholarshipPrefix, a.scholarships[..i])
      invariant first <==> ScholarshipScreens(a.scholarshipPrefix, a.scholarships[..i]) == []
    {
      assert a.scholarships[..i + 1][..i] == a.scholarships[..i];
      if !a.scholarships[i].hidden {
        out := out + [Extra(a.scholarshipPrefix, a.scholarships[i], first)];
        first := false;
      }
      i := i + 1;
    }
    assert a.scholarships[..i] == a.scholarships;
    out := out + [Review];
    AllAsked(a);
  }

  /** The cohort is picked on a screen exactly when there is a choice. */
  lemma CohortIsPicked(a: Args)
    ensures PickCohort in Screens(a) <==> a.chooseCohort
  {
    BuiltInHas(a, PickCohort);
    InScreens(a, PickCohort);
    EveryCustomHasAScreen(a.customPrefix, a.customs);
    EveryCustomHasAScreen(a.scholarshipPrefix, a.scholarships);
    hide Screens, BuiltInScreens, CustomScreens, ScholarshipScreens, Showing;
  }

  lemma AllAsked(a: Args)
    ensures |Screens(a)| >= 2 && Screens(a)[0] == Welcome && Screens(a)[|Screens(a)| - 1] == Review
    ensures forall key :: HasScreen(Screens(a), a.cfg, key) <==> Asked(a, key)
  {
    StartsWithWelcome(a);
    hide BuiltInScreens, CustomScreens, ScholarshipScreens, HasScreen, Asked;
    forall key ensures HasScreen(Screens(a), a.cfg, key) <==> Asked(a, key) { EveryQuestionHasAScreen(a, key); }
  }

  /** The questions that are shown, in their order. */
  function Showing(questions: seq<Custom>): seq<Custom> {
    if questions == [] then [] else if questions[0].hidden then Showing(questions[1..])
    else [questions[0]] + Showing(questions[1..])
  }

  lemma {:induction false} ShowingMore(a: seq<Custom>, q: Custom)
    ensures Showing(a + [q]) == Showing(a) + if q.hidden then [] else [q]
  {
    if a == [] {
      assert a + [q] == [q] && Showing([q][1..]) == [];
    } else {
      ShowingMore(a[1..], q);
      assert (a + [q])[1..] == a[1..] + [q];
    }
  }

  /** Each question that is shown has its screen, in order; the first of the scholarship's carries the explainer. */
  lemma {:induction false} EveryCustomHasAScreen(prefix: Text, questions: seq<Custom>)
    ensures var shown, custom, scholarship :=
              Showing(questions), CustomScreens(prefix, questions), ScholarshipScreens(prefix, questions);
            && |custom| == |scholarship| == |shown|
            && forall k :: 0 <= k < |shown| ==>
                 custom[k] == Extra(prefix, shown[k], false) && scholarship[k] == Extra(prefix, shown[k], k == 0)
  {
    if questions != [] {
      var front := questions[..|questions| - 1];
      EveryCustomHasAScreen(prefix, front);
      ShowingMore(front, questions[|questions| - 1]);
      assert questions == front + [questions[|questions| - 1]];
    }
  }

  /** A screen checks this built-in question. */
  predicate Checks(s: Screen, cfg: Config, key: Key) {
    match s
    case Field(k) => k == key
    case Location => key in LOCATION_KEYS && IsVisible(cfg, key)
    case Links => key in LINK_KEYS && IsVisible(cfg, key)
    case _ => false
  }

  /** Every question on the form is on a screen; the parent's email is exactly when it is asked for. */
  lemma EveryQuestionHasAScreen(a: Args, key: Key)
    ensures HasScreen(Screens(a), a.cfg, key) <==> Asked(a, key)
  {
    forall s | Checks(s, a.cfg, key) ensures s in Screens(a) <==> Shown(a, s) {
      NoChecksInExtras(a.customPrefix, a.customs, s, a.cfg, key);
      NoChecksInScholarships(a.scholarshipPrefix, a.scholarships, s, a.cfg, key);
      BuiltInHas(a, s);
      InScreens(a, s);
    }
    hide Screens, BuiltInScreens, AsksParentEmail;
    HomeIsShown(a, key);
    hide IsVisible;
    var home := HomeOf(key);
    if home in Screens(a) && Checks(home, a.cfg, key) { assert Shown(a, home); }
  }

  predicate Starts(out: seq<Screen>) { out != [] && out[0] == Welcome }

  lemma StartsWithWelcome(a: Args)
    ensures |Screens(a)| >= 2 && Screens(a)[0] == Welcome
  {
    hide CustomScreens, ScholarshipScreens, AsksParentEmail, IsVisible, AnyVisible, Push, Starts;
    assert Starts([Welcome]) by { WelcomeStarts(); }
    forall out: seq<Screen>, shown: bool, x: Screen ensures Starts(out) ==> Starts(Push(out, shown, x)) {
      PushStarts(out, shown, x);
    }
    assert Starts(AboutScreens(a));
    hide AboutScreens;
    assert Starts(BuiltInScreens(a));
    hide BuiltInScreens, PushField;
    StartsMeans(BuiltInScreens(a));
  }

  lemma WelcomeStarts()
    ensures Starts([Welcome])
  {}

  lemma PushStarts(out: seq<Screen>, shown: bool, x: Screen)
    ensures Starts(out) ==> Starts(Push(out, shown, x))
  {}

  lemma StartsMeans(out: seq<Screen>)
    requires Starts(out)
    ensures out != [] && out[0] == Welcome
  {}

  lemma InScreens(a: Args, s: Screen)
    ensures s in Screens(a)
            <==> s in BuiltInScreens(a) || s in CustomScreens(a.customPrefix, a.customs)
                 || s in ScholarshipScreens(a.scholarshipPrefix, a.scholarships) || s == Review
  {
    hide BuiltInScreens, CustomScreens, ScholarshipScreens;
  }

  /** The screen a question belongs on. */
  function HomeOf(key: Key): Screen {
    if key in LOCATION_KEYS then Location else if key in LINK_KEYS then Links else Field(key)
  }

  lemma HomeIsShown(a: Args, key: Key)
    ensures Shown(a, HomeOf(key)) && Checks(HomeOf(key), a.cfg, key)
            <==> if key.ParentEmail? then AsksParentEmail(a.cfg, a.form) else IsVisible(a.cfg, key)
    ensures forall s :: Shown(a, s) && Checks(s, a.cfg, key) ==> s == HomeOf(key)
  {
    hide AsksParentEmail;
    if IsVisible(a.cfg, key) && key in LOCATION_KEYS { assert LOCATION_KEYS[if key.City? then 0 else 1] == key; }
    if IsVisible(a.cfg, key) && key in LINK_KEYS {
      assert LINK_KEYS[if key.LinkedinUrl? then 0 else if key.ResumeUrl? then 1 else 2] == key;
    }
  }

  /** Which built-in screens there are. */
  predicate Shown(a: Args, s: Screen) {
    match s
    case Welcome => true
    case PickCohort => a.chooseCohort
    case Field(key) =>
      if key.ParentEmail? then AsksParentEmail(a.cfg, a.form)
      else key !in LOCATION_KEYS && key !in LINK_KEYS && IsVisible(a.cfg, key)
    case Location => AnyVisible(a.cfg, LOCATION_KEYS)
    case Links => AnyVisible(a.cfg, LINK_KEYS)
    case Extra(_, _, _) => false
    case Review => false
  }

  predicate Has(out: seq<Screen>, s: Screen) { s in out }

  lemma InPush(out: seq<Screen>, shown: bool, x: Screen, s: Screen)
    ensures Has(Push(out, shown, x), s) <==> Has(out, s) || (shown && s == x)
  {}

  lemma BuiltInHas(a: Args, s: Screen)
    ensures s in BuiltInScreens(a) <==> Shown(a, s)
  {
    hide Push, PushField, AnyVisible, AsksParentEmail, IsVisible, AboutScreens, BuiltInScreens;
    assert s in BuiltInScreens(a) <==> Has(BuiltInScreens(a), s);
    hide Has;
    AboutHas(a, s);
    RestHas(AboutScreens(a), a, s);
  }

  lemma RestHas(about: seq<Screen>, a: Args, s: Screen)
    requires about == AboutScreens(a)
    ensures Has(BuiltInScreens(a), s)
            <==> Has(about, s)
                 || match s
                    case Field(key) =>
                      (key.WhyJoin? || key.StartupIdea? || key.TeamSize? || key.Experience? || key.HoursPerWeek?
                        || key.ReferralSource?)
                      && IsVisible(a.cfg, key)
                    case Links => AnyVisible(a.cfg, LINK_KEYS)
                    case _ => false
  {
    hide Has, Push, AnyVisible, AsksParentEmail, IsVisible, AboutScreens;
    forall out: seq<Screen>, shown: bool, x: Screen ensures Has(Push(out, shown, x), s) <==> Has(out, s) || (shown && s == x) {
      InPush(out, shown, x, s);
    }
  }

  lemma JustWelcome(s: Screen)
    ensures Has([Welcome], s) <==> s == Welcome
  {}

  lemma AboutHas(a: Args, s: Screen)
    ensures Has(AboutScreens(a), s)
            <==> match s
                 case Welcome => true
                 case PickCohort => a.chooseCohort
                 case Field(key) =>
                   if key.ParentEmail? then AsksParentEmail(a.cfg, a.form)
                   else (key.FullName? || key.Age? || key.Phone? || key.Grade? || key.School?) && IsVisible(a.cfg, key)
                 case Location => AnyVisible(a.cfg, LOCATION_KEYS)
                 case _ => false
  {
    hide Has, Push, AnyVisible, AsksParentEmail, IsVisible;
    forall out: seq<Screen>, shown: bool, x: Screen ensures Has(Push(out, shown, x), s) <==> Has(out, s) || (shown && s == x) {
      InPush(out, shown, x, s);
    }
    JustWelcome(s);
  }

  lemma {:induction false} NoChecksInExtras(prefix: Text, questions: seq<Custom>, s: Screen, cfg: Config, key: Key)
    ensures s in CustomScreens(prefix, questions) ==> !Checks(s, cfg, key)
  {
    if questions != [] { NoChecksInExtras(prefix, questions[..|questions| - 1], s, cfg, key); }
  }

  lemma {:induction false} NoChecksInScholarships(prefix: Text, questions: seq<Custom>, s: Screen, cfg: Config, key: Key)
    ensures s in ScholarshipScreens(prefix, questions) ==> !Checks(s, cfg, key)
  {
    if questions != [] { NoChecksInScholarships(prefix, questions[..|questions| - 1], s, cfg, key); }
  }

  // ---------------------------------------------------------------------------------------------
  // Validation
  // ---------------------------------------------------------------------------------------------

  function MaxLength(key: Key): nat {
    match key
    case FullName => 120
    case Age => 3
    case Grade => 40
    case School => 160
    case City => 120
    case Country => 120
    case Phone => 30
    case ParentEmail => 160
    case WhyJoin => 2000
    case StartupIdea => 2000
    case Experience => 2000
    case HoursPerWeek => 3
    case TeamSize => 1
    case ReferralSource => 200
    case LinkedinUrl => 500
    case ResumeUrl => 500
    case PortfolioUrl => 500
  }

  /** The checks this model takes as given: a phone number, an email address, a link, and a custom question's answer. */
  datatype Rules = Rules(phone: Text -> bool, email: Text -> bool, link: Text -> bool, answer: (Custom, Option<Text>) -> bool)

  /** fieldError says nothing against the field. */
  predicate FieldOk(rules: Rules, key: Key, form: Form, cfg: Config) {
    var value := Get(form, key);
    var trimmed := Trim(value);
    var asked := IsVisible(cfg, key) && IsRequired(cfg, key);
    |trimmed| <= MaxLength(key) &&
      match key
      case Age =>
        var n := ParseInt(value);
        !Blank(value) && n.Some? && AllDigits(trimmed) && 10 <= n.value <= 25
      case Phone => !Blank(value) && rules.phone(value)
      case ParentEmail => if Blank(value) then !(IsMinor(Get(form, Age)) || asked) else rules.email(trimmed)
      case WhyJoin => |trimmed| >= WHY_MIN
      case TeamSize => |trimmed| == 1 && AllDigits(trimmed) && ParseInt(trimmed).Some? && 1 <= ParseInt(trimmed).value <= 5
      case HoursPerWeek => if Blank(value) then !asked
        else AllDigits(trimmed) && ParseInt(trimmed).Some? && 0 <= ParseInt(trimmed).value <= 168
      case LinkedinUrl => if Blank(value) then !asked else rules.link(trimmed)
      case ResumeUrl => if Blank(value) then !asked else rules.link(trimmed)
      case PortfolioUrl => if Blank(value) then !asked else rules.link(trimmed)
      case _ => Blank(value) ==> !asked
  }

  datatype Context = Context(rules: Rules, form: Form, cfg: Config, extra: map<Text, Text>, cohortId: Option<Text>,
                             cohortIds: seq<Text>)

  /** A posted field's name. */
  datatype Name = OfField(key: Key) | OfCohort | OfExtra(name: Text)

  function FieldName(prefix: Text, id: Text): Text { prefix + [UNDERSCORE, UNDERSCORE] + id }

  function Wrong(ctx: Context, keys: seq<Key>): set<Name> {
    set k | k in keys && IsVisible(ctx.cfg, k) && !FieldOk(ctx.rules, k, ctx.form, ctx.cfg) :: OfField(k)
  }

  /** The fields of one screen that have errors. */
  function ValidateScreen(s: Screen, ctx: Context): set<Name> {
    match s
    case PickCohort => if ctx.cohortId.Some? && ctx.cohortId.value in ctx.cohortIds then {} else {OfCohort}
    case Field(key) => if FieldOk(ctx.rules, key, ctx.form, ctx.cfg) then {} else {OfField(key)}
    case Location => Wrong(ctx, LOCATION_KEYS)
    case Links => Wrong(ctx, LINK_KEYS)
    case Extra(prefix, q, _) =>
      var name := FieldName(prefix, q.id);
      if q.hidden || ctx.rules.answer(q, if name in ctx.extra then Some(ctx.extra[name]) else None) then {} else {OfExtra(name)}
    case _ => {}
  }

  predicate Valid(s: Screen, ctx: Context) { ValidateScreen(s, ctx) == {} }

  method ValidateAll(screens: seq<Screen>, ctx: Context) returns (errors: set<Name>, firstInvalid: int)
    ensures forall n :: n in errors <==> exists i :: 0 <= i < |screens| && n in ValidateScreen(screens[i], ctx)
    ensures firstInvalid == FirstInvalid(screens, ctx)
  {
    errors, firstInvalid := {}, -1;
    var i := 0;
    while i < |screens|
      invariant 0 <= i <= |screens|
      invariant forall n :: n in errors <==> exists j :: 0 <= j < i && n in ValidateScreen(screens[j], ctx)
      invariant -1 <= firstInvalid < i
      invariant if firstInvalid == -1 then forall j :: 0 <= j < i ==> Valid(screens[j], ctx)
                else !Valid(screens[firstInvalid], ctx) && forall j :: 0 <= j < firstInvalid ==> Valid(screens[j], ctx)
    {
      var errs := ValidateScreen(screens[i], ctx);
      if errs != {} {
        errors := errors + errs;
        if firstInvalid == -1 { firstInvalid := i; }
      }
      i := i + 1;
    }
    FirstInvalidMeans(screens, ctx, firstInvalid);
  }

  function FirstInvalid(screens: seq<Screen>, ctx: Context): int {
    if screens == [] then -1
    else if !Valid(screens[0], ctx) then 0
    else var rest := FirstInvalid(screens[1..], ctx); if rest == -1 then -1 else rest + 1
  }

  lemma {:induction false} FirstInvalidMeans(screens: seq<Screen>, ctx: Context, i: int)
    ensures i == FirstInvalid(screens, ctx)
            <==> if 0 <= i < |screens| then !Valid(screens[i], ctx) && forall j :: 0 <= j < i ==> Valid(screens[j], ctx)
                 else i == -1 && forall j :: 0 <= j < |screens| ==> Valid(screens[j], ctx)
  {
    hide Valid;
    if screens != [] && Valid(screens[0], ctx) {
      var rest := screens[1..];
      FirstInvalidMeans(rest, ctx, FirstInvalid(rest, ctx));
      FirstInvalidMeans(rest, ctx, if i == -1 then -1 else i - 1);
      FirstInvalidMeans(rest, ctx, -1);
      assert forall j :: 0 < j < |screens| ==> screens[j] == rest[j - 1];
      forall j | 0 <= j < |rest| ensures rest[j] == screens[j + 1] {}
    }
  }

  // ---------------------------------------------------------------------------------------------
  // The server's half
  // ---------------------------------------------------------------------------------------------

  method RequiredBuiltinErrors(cfg: Config, values: Form) returns (errs: set<Key>)
    ensures forall k :: k in errs <==> Missing(cfg, values, k)
  {
    errs := {};
    var i := 0;
    while i < |QUESTION_FIELDS|
      invariant 0 <= i <= |QUESTION_FIELDS|
      invariant forall k :: k in errs <==> Missing(cfg, values, k) && k in QUESTION_FIELDS[..i]
    {
      var key := QUESTION_FIELDS[i];
      assert QUESTION_FIELDS[..i + 1] == QUESTION_FIELDS[..i] + [key];
      if !IsRequiredCore(key) && IsVisible(cfg, key) && IsRequired(cfg, key) && Blank(Get(values, key)) { errs := errs + {key}; }
      i := i + 1;
    }
    assert QUESTION_FIELDS[..i] == QUESTION_FIELDS;
    forall k: Key ensures k in QUESTION_FIELDS { EveryKeyIsAQuestion(k); }
  }

  lemma EveryKeyIsAQuestion(k: Key)
    ensures k in QUESTION_FIELDS
  {
    var at := match k
      case FullName => 0 case Age => 1 case Grade => 2 case School => 3 case City => 4 case Country => 5 case Phone => 6
      case ParentEmail => 7 case Experience => 8 case HoursPerWeek => 9 case ReferralSource => 10 case LinkedinUrl => 11
      case ResumeUrl => 12 case PortfolioUrl => 13 case WhyJoin => 14 case StartupIdea => 15 case TeamSize => 16;
    assert QUESTION_FIELDS[at] == k;
  }

  /** A question an admin made required, left blank. */
  predicate Missing(cfg: Config, values: Form, k: Key) {
    !IsRequiredCore(k) && IsVisible(cfg, k) && IsRequired(cfg, k) && Blank(Get(values, k))
  }

  function PostableForm(form: Form, cfg: Config): Form {
    if AsksParentEmail(cfg, form) then form else form[ParentEmail := []]
  }

  /** A screen that checks a question finds fault with it when the field is not right. */
  lemma CheckedIsOk(s: Screen, ctx: Context, key: Key)
    requires Checks(s, ctx.cfg, key) && Valid(s, ctx)
    ensures FieldOk(ctx.rules, key, ctx.form, ctx.cfg)
  {
    hide FieldOk;
    assert (s.Location? || s.Links?) && !FieldOk(ctx.rules, key, ctx.form, ctx.cfg) ==> OfField(key) in ValidateScreen(s, ctx);
  }

  /**
   * A form that passes every screen, posted as the flow posts it, leaves the server nothing to ask for: no question an
   * admin required is blank, every core question is answered, and a minor's parent email is there.
   */
  lemma PassingFormIsComplete(a: Args, ctx: Context)
    requires ctx.form == a.form && ctx.cfg == a.cfg
    requires FirstInvalid(Screens(a), ctx) == -1
    ensures var posted := PostableForm(a.form, a.cfg);
            && (forall k :: !Missing(a.cfg, posted, k))
            && (forall k :: IsRequiredCore(k) ==> !Blank(Get(posted, k)))
            && (IsMinor(Get(posted, Age)) ==> !Blank(Get(posted, ParentEmail)))
  {
    var posted := PostableForm(a.form, a.cfg);
    FirstInvalidMeans(Screens(a), ctx, -1);
    hide FirstInvalid, Screens, Valid, FieldOk;
    forall k: Key | (if k.ParentEmail? then AsksParentEmail(a.cfg, a.form) else IsVisible(a.cfg, k))
      ensures FieldOk(ctx.rules, k, ctx.form, ctx.cfg)
    {
      EveryQuestionHasAScreen(a, k);
      var s :| s in Screens(a) && Checks(s, a.cfg, k);
      var i :| 0 <= i < |Screens(a)| && Screens(a)[i] == s;
      assert Valid(Screens(a)[i], ctx);
      CheckedIsOk(s, ctx, k);
    }
    forall k: Key ensures !Missing(a.cfg, posted, k) && (IsRequiredCore(k) ==> !Blank(Get(posted, k))) {
      if IsVisible(a.cfg, k) && (!k.ParentEmail? || AsksParentEmail(a.cfg, a.form)) { OkIsAnswered(ctx, k); }
    }
    if IsMinor(Get(posted, Age)) { OkIsAnswered(ctx, ParentEmail); }
  }

  lemma OkIsAnswered(ctx: Context, k: Key)
    requires FieldOk(ctx.rules, k, ctx.form, ctx.cfg)
    ensures IsVisible(ctx.cfg, k) && IsRequired(ctx.cfg, k) ==> !Blank(Get(ctx.form, k))
    ensures k.ParentEmail? && IsMinor(Get(ctx.form, Age)) ==> !Blank(Get(ctx.form, k))
  {}

  // ---------------------------------------------------------------------------------------------
  // Where a returning applicant lands
  // ---------------------------------------------------------------------------------------------

  predicate HasAnswer(s: Screen, ctx: Context) {
    match s
    case PickCohort => ctx.cohortId.Some?
    case Field(key) => !Blank(Get(ctx.form, key))
    case Location => exists k :: 0 <= k < |LOCATION_KEYS| && !Blank(Get(ctx.form, LOCATION_KEYS[k]))
    case Links => exists k :: 0 <= k < |LINK_KEYS| && !Blank(Get(ctx.form, LINK_KEYS[k]))
    case Extra(prefix, q, _) => FieldName(prefix, q.id) in ctx.extra && !Blank(ctx.extra[FieldName(prefix, q.id)])
    case _ => false
  }

  /**
   * Just past the furthest screen answered, but never past one that needs something. On the screens of the flow, whose first
   * is the welcome, and on any list whose first screen passes, every screen before it is valid; it stops short of an
   * answered screen only at one that is not.
   */
  method ResumeIndex(screens: seq<Screen>, ctx: Context) returns (r: int)
    ensures |screens| >= 2 ==> 1 <= r < |screens|
    ensures OfTheFlow(screens) ==>
              && 1 <= r < |screens| && (forall i :: 0 <= i < r ==> Valid(screens[i], ctx))
              && ((exists i :: r <= i < |screens| - 1 && HasAnswer(screens[i], ctx)) ==> !Valid(screens[r], ctx))
    ensures |screens| >= 2 ==> (Valid(screens[0], ctx) <==> forall i :: 0 <= i < r ==> Valid(screens[i], ctx))
    ensures |screens| >= 2 && Valid(screens[0], ctx) && (exists i :: r <= i < |screens| - 1 && HasAnswer(screens[i], ctx)) ==>
              !Valid(screens[r], ctx)
    ensures 1 < r < |screens| ==> HasAnswer(screens[r - 1], ctx) || exists i :: r <= i < |screens| && HasAnswer(screens[i], ctx)
  {
    hide Valid, HasAnswer, OfTheFlow;
    if OfTheFlow(screens) { WelcomePasses(screens, ctx); }
    var lastAnswered := -1;
    var i := 0;
    while i < |screens|
      invariant 0 <= i <= |screens| && -1 <= lastAnswered < i
      invariant lastAnswered >= 0 ==> HasAnswer(screens[lastAnswered], ctx)
      invariant forall j :: lastAnswered < j < i ==> !HasAnswer(screens[j], ctx)
    {
      if HasAnswer(screens[i], ctx) { lastAnswered := i; }
      i := i + 1;
    }
    var reviewAt := |screens| - 1;
    if lastAnswered == -1 { return if 1 < |screens| then 1 else 0; }
    var head := screens[..lastAnswered + 1];
    var _, firstInvalid := ValidateAll(head, ctx);
    FirstInvalidMeans(head, ctx, firstInvalid);
    forall j | 0 <= j < |head| ensures head[j] == screens[j] {}
    var target := if firstInvalid != -1 then firstInvalid else lastAnswered + 1;
    r := if target > reviewAt then reviewAt else target;
    r := if r < 1 then 1 else r;
  }

  /** The screens of some form. */
  ghost predicate OfTheFlow(screens: seq<Screen>) { exists a: Args :: screens == Screens(a) }

  lemma WelcomePasses(screens: seq<Screen>, ctx: Context)
    requires OfTheFlow(screens)
    ensures |screens| >= 2 && Valid(screens[0], ctx)
  {
    var a: Args :| screens == Screens(a);
    StartsWithWelcome(a);
    hide Screens;
  }
}
