/**
  The intake form of the bot (main.py, class `Form` and the message
  handlers): consent -> fio -> phone -> direction -> course type ->
  course selection, ending with the session cleared.

  Each handler is a pure function from the catalog, the user's session and
  the message text to an `Outcome`: the new session, the bot's reply and
  the lead records written to the spreadsheet on this step.
*/
module Form {
  import opened Wrappers
  import opened Strings
  import opened Courses

  /** The states of `Form(StatesGroup)`. */
  datatype FormState = Consent | Fio | Phone | Direction | CourseType | CourseSelection

  /** What the FSM context holds for one user: the current state (`None`
      once cleared or before `/start`) and the data dict's four keys. */
  datatype Session = Session(
    state: Option<FormState>,
    fio: Option<string>,
    phone: Option<string>,
    direction: Option<string>,
    courseType: Option<string>)

  /** The session after `state.clear()`: no state and no data. */
  const Cleared: Session := Session(None, None, None, None, None)

  /** An incoming message: the `/start` command, or any other text. */
  datatype Input = StartCommand | Message(text: string)

  /** What a reply does to the reply keyboard: leave it, remove it, or
      replace it with buttons carrying these labels, one per row. */
  datatype Keyboard = KeepKeyboard | RemoveKeyboard | Buttons(labels: seq<string>)

  /** The bot's messages, by meaning. */
  datatype Prompt =
    | AskConsent        // consent to personal-data processing?
    | AskFio            // please enter your full name
    | AskPhone          // enter your phone number
    | AskDirection      // choose a direction
    | AskCourseType     // choose a course type
    | AskCourse         // choose a course from the list
    | ConsentRequired   // consent is required to continue
    | FioEmpty          // the name must not be empty
    | PhoneEmpty        // the phone number must not be empty
    | PickDirection     // choose one of the offered directions
    | PickCourseType    // choose free or paid courses
    | CoursesNotFound   // no courses for this direction and type
    | PickCourse        // choose one of the offered courses
    | CourseLink(name: string, link: string)  // the chosen course and its link

  datatype Reply = NoReply | Answer(prompt: Prompt, keyboard: Keyboard)

  /** One row appended to the leads worksheet: `[fio, phone, direction]`. */
  datatype Lead = Lead(fio: Option<string>, phone: Option<string>, direction: string)

  datatype Outcome = Outcome(session: Session, reply: Reply, leads: seq<Lead>)

  const ConsentLabel: string := "Согласен"
  const FreeLabel: string := "Бесплатные"
  const PaidLabel: string := "Платные"

  /** At most this many courses are offered as buttons. */
  const MaxShown: nat := 5

  /** The session unchanged with a re-prompt: the validation failure path. */
  function Reprompt(s: Session, p: Prompt): Outcome {
    Outcome(s, Answer(p, KeepKeyboard), [])
  }

  /** `COURSES.get(direction, {}).get(course_type, [])` on the values read
      back from the data dict, either of which may be missing. */
  function CoursesOf(cat: Catalog, d: Option<string>, t: Option<string>): seq<Course> {
    if d.Some? && t.Some? then Lookup(cat, d.value, t.value) else []
  }

  /** The first `MaxShown` courses, in catalog order (`courses[:5]`). */
  function Shown(cs: seq<Course>): seq<Course> {
    if |cs| <= MaxShown then cs else cs[..MaxShown]
  }

  function Names(cs: seq<Course>): seq<string> {
    seq(|cs|, i requires 0 <= i < |cs| => cs[i].name)
  }

  /** Position of the first course named `n`, or `|cs|` when there is none. */
  function FirstNamed(cs: seq<Course>, n: string): (k: nat)
    ensures k <= |cs|
    ensures k < |cs| ==> cs[k].name == n
    ensures forall j :: 0 <= j < k ==> cs[j].name != n
  {
    if |cs| == 0 then 0
    else if cs[0].name == n then 0
    else 1 + FirstNamed(cs[1..], n)
  }

  // ---------------------------------------------------------------------
  // Handlers

  /** `handle_start`: ask for consent and enter `Consent`, from any state.
      The stored data is not cleared. */
  function HandleStart(s: Session): (o: Outcome)
    ensures o.session.state == Some(Consent)
    ensures o.session.fio == s.fio && o.session.phone == s.phone
    ensures o.session.direction == s.direction && o.session.courseType == s.courseType
    ensures o.reply == Answer(AskConsent, Buttons([ConsentLabel])) && o.leads == []
  {
    Outcome(s.(state := Some(Consent)), Answer(AskConsent, Buttons([ConsentLabel])), [])
  }

  /** `handle_consent`: the exact, untrimmed consent label moves on to the
      name; anything else ends the conversation with all data dropped. */
  function HandleConsent(s: Session, text: string): (o: Outcome)
    ensures text == ConsentLabel <==> o.session.state == Some(Fio)
    ensures text == ConsentLabel ==>
      o.session == s.(state := Some(Fio)) && o.reply == Answer(AskFio, RemoveKeyboard)
    ensures text != ConsentLabel ==>
      o.session == Cleared && o.reply == Answer(ConsentRequired, RemoveKeyboard)
    ensures o.leads == []
  {
    if text == ConsentLabel then
      Outcome(s.(state := Some(Fio)), Answer(AskFio, RemoveKeyboard), [])
    else
      Outcome(Cleared, Answer(ConsentRequired, RemoveKeyboard), [])
  }

  /** `handle_fio`: an empty name (after trimming) changes nothing; otherwise
      the trimmed name is stored and the phone is asked for. */
  function HandleFio(s: Session, text: string): (o: Outcome)
    ensures Trim(text) == [] ==> o == Outcome(s, Answer(FioEmpty, KeepKeyboard), [])
    ensures Trim(text) != [] ==>
      && o.session == s.(state := Some(Phone), fio := Some(Trim(text)))
      && o.reply == Answer(AskPhone, RemoveKeyboard)
    ensures o.leads == []
  {
    var fio := Trim(text);
    if fio == [] then Reprompt(s, FioEmpty)
    else Outcome(s.(state := Some(Phone), fio := Some(fio)), Answer(AskPhone, RemoveKeyboard), [])
  }

  /** `handle_phone`: an empty number changes nothing; otherwise the trimmed
      number is stored and every direction is offered, in catalog order. */
  function HandlePhone(cat: Catalog, s: Session, text: string): (o: Outcome)
    ensures Trim(text) == [] ==> o == Outcome(s, Answer(PhoneEmpty, KeepKeyboard), [])
    ensures Trim(text) != [] ==>
      && o.session == s.(state := Some(Direction), phone := Some(Trim(text)))
      && o.reply == Answer(AskDirection, Buttons(Keys(cat)))
    ensures o.leads == []
  {
    var phone := Trim(text);
    if phone == [] then Reprompt(s, PhoneEmpty)
    else Outcome(s.(state := Some(Direction), phone := Some(phone)), Answer(AskDirection, Buttons(Keys(cat))), [])
  }

  /** `handle_direction`: a trimmed text that is not a direction changes
      nothing; a direction is stored, exactly one lead `(fio, phone,
      direction)` is written, and that direction's course types are offered. */
  function HandleDirection(cat: Catalog, s: Session, text: string): (o: Outcome)
    ensures Trim(text) !in Keys(cat) ==> o == Outcome(s, Answer(PickDirection, KeepKeyboard), [])
    ensures Trim(text) in Keys(cat) ==>
      && o.session == s.(state := Some(CourseType), direction := Some(Trim(text)))
      && o.leads == [Lead(s.fio, s.phone, Trim(text))]
      && o.reply == Answer(AskCourseType, Buttons(TypeKeys(cat, Trim(text))))
  {
    var d := Trim(text);
    if d !in Keys(cat) then Reprompt(s, PickDirection)
    else
      Outcome(s.(state := Some(CourseType), direction := Some(d)),
              Answer(AskCourseType, Buttons(TypeKeys(cat, d))),
              [Lead(s.fio, s.phone, d)])
  }

  /** `handle_course_type`: only the two fixed labels are accepted. An
      accepted type with no courses under the stored direction ends the
      conversation; otherwise the first `MaxShown` course names are offered. */
  function HandleCourseType(cat: Catalog, s: Session, text: string): (o: Outcome)
    ensures var t := Trim(text);
      t != FreeLabel && t != PaidLabel ==> o == Outcome(s, Answer(PickCourseType, KeepKeyboard), [])
    ensures var t := Trim(text); var cs := CoursesOf(cat, s.direction, Some(t));
      (t == FreeLabel || t == PaidLabel) && |cs| == 0 ==>
        o == Outcome(Cleared, Answer(CoursesNotFound, KeepKeyboard), [])
    ensures var t := Trim(text); var cs := CoursesOf(cat, s.direction, Some(t));
      (t == FreeLabel || t == PaidLabel) && |cs| > 0 ==>
        && o.session == s.(state := Some(CourseSelection), courseType := Some(t))
        && o.leads == []
        && o.reply.Answer? && o.reply.prompt == AskCourse && o.reply.keyboard.Buttons?
        && var labels := o.reply.keyboard.labels;
           && |labels| == (if |cs| < MaxShown then |cs| else MaxShown)
           && forall i :: 0 <= i < |labels| ==> labels[i] == cs[i].name
  {
    var t := Trim(text);
    if t != FreeLabel && t != PaidLabel then Reprompt(s, PickCourseType)
    else
      var cs := CoursesOf(cat, s.direction, Some(t));
      if |cs| == 0 then Outcome(Cleared, Answer(CoursesNotFound, KeepKeyboard), [])
      else
        Outcome(s.(state := Some(CourseSelection), courseType := Some(t)),
                Answer(AskCourse, Buttons(Names(Shown(cs)))), [])
  }

  /** `handle_course_selection`: the first course of the FULL list (not only
      the offered ones) whose name is the trimmed text is chosen, its link
      sent and the session cleared; with no such course nothing changes. */
  function HandleCourseSelection(cat: Catalog, s: Session, text: string): (o: Outcome)
    ensures var n := Trim(text); var cs := CoursesOf(cat, s.direction, s.courseType);
      (forall i :: 0 <= i < |cs| ==> cs[i].name != n) ==>
        o == Outcome(s, Answer(PickCourse, KeepKeyboard), [])
    ensures var n := Trim(text); var cs := CoursesOf(cat, s.direction, s.courseType);
      forall i :: 0 <= i < |cs| && cs[i].name == n && (forall j :: 0 <= j < i ==> cs[j].name != n) ==>
        o == Outcome(Cleared, Answer(CourseLink(n, cs[i].link), RemoveKeyboard), [])
  {
    var n := Trim(text);
    var cs := CoursesOf(cat, s.direction, s.courseType);
    var k := FirstNamed(cs, n);
    if k == |cs| then Reprompt(s, PickCourse)
    else Outcome(Cleared, Answer(CourseLink(n, cs[k].link), RemoveKeyboard), [])
  }

  /** The dispatcher: `/start` is handled in every state; any other message
      goes to the handler of the current state, and is dropped without a
      reply when there is no state. */
  function Step(cat: Catalog, s: Session, input: Input): (o: Outcome)
    ensures |o.leads| <= 1
    ensures o.leads != [] ==>
      && s.state == Some(Direction) && input.Message?
      && o.session.state == Some(CourseType) && o.session.direction.Some?
      && o.leads == [Lead(s.fio, s.phone, o.session.direction.value)]
    ensures input.Message? && s.state == None ==> o == Outcome(s, NoReply, [])
  {
    match input
    case StartCommand => HandleStart(s)
    case Message(text) =>
      match s.state
      case None => Outcome(s, NoReply, [])
      case Some(Consent) => HandleConsent(s, text)
      case Some(Fio) => HandleFio(s, text)
      case Some(Phone) => HandlePhone(cat, s, text)
      case Some(Direction) => HandleDirection(cat, s, text)
      case Some(CourseType) => HandleCourseType(cat, s, text)
      case Some(CourseSelection) => HandleCourseSelection(cat, s, text)
  }
}
