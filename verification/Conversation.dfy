/**
  Whole conversations: one user's messages fed to the dispatcher in turn,
  with the invariants the handlers keep between messages and the
  behaviour the bot shows over several messages.
*/
module Conversation {
  import opened Wrappers
  import opened Strings
  import opened Courses
  import opened Form

  /** Where a conversation ends up, what the bot said to each message, and
      every lead written on the way, in order. */
  datatype Trace = Trace(session: Session, replies: seq<Reply>, leads: seq<Lead>)

  /** Handles `inputs` one after another, starting from session `s`. */
  function Run(cat: Catalog, s: Session, inputs: seq<Input>): (t: Trace)
    ensures |t.replies| == |inputs|
    ensures |t.leads| <= |inputs|
    decreases |inputs|
  {
    if |inputs| == 0 then Trace(s, [], [])
    else
      var o := Step(cat, s, inputs[0]);
      var rest := Run(cat, o.session, inputs[1..]);
      Trace(rest.session, [o.reply] + rest.replies, o.leads + rest.leads)
  }

  function Repeat<T>(x: T, n: nat): (xs: seq<T>)
    ensures |xs| == n && forall i :: 0 <= i < n ==> xs[i] == x
  {
    seq(n, _ => x)
  }

  /** The position of a state along the form; 0 for no state. */
  function Rank(st: Option<FormState>): nat {
    match st
    case None => 0
    case Some(Consent) => 1
    case Some(Fio) => 2
    case Some(Phone) => 3
    case Some(Direction) => 4
    case Some(CourseType) => 5
    case Some(CourseSelection) => 6
  }

  /** Fields are filled in form order: from `Phone` on the name is set, from
      `Direction` on the phone, from `CourseType` on the direction, and in
      `CourseSelection` the course type. */
  predicate FieldOrder(s: Session) {
    && (Rank(s.state) >= Rank(Some(Phone)) ==> s.fio.Some?)
    && (Rank(s.state) >= Rank(Some(Direction)) ==> s.phone.Some?)
    && (Rank(s.state) >= Rank(Some(CourseType)) ==> s.direction.Some?)
    && (s.state == Some(CourseSelection) ==> s.courseType.Some?)
  }

  /** A stored name or phone: non-empty and trimmed. */
  predicate ValidEntry(x: Option<string>) {
    x.Some? ==> x.value != [] && IsTrimmed(x.value)
  }

  /** Everything a session reachable from a cleared one satisfies. */
  predicate Consistent(cat: Catalog, s: Session) {
    && FieldOrder(s)
    && ValidEntry(s.fio) && ValidEntry(s.phone)
    && (s.direction.Some? ==> s.direction.value in Keys(cat))
    && (s.courseType.Some? ==> s.courseType.value == FreeLabel || s.courseType.value == PaidLabel)
    && (s.state == Some(CourseSelection) ==> |CoursesOf(cat, s.direction, s.courseType)| > 0)
  }

  /** A written lead carries a name, a phone and a catalog direction. */
  predicate LeadComplete(cat: Catalog, l: Lead) {
    l.fio.Some? && l.phone.Some? && ValidEntry(l.fio) && ValidEntry(l.phone) && l.direction in Keys(cat)
  }

  predicate AllComplete(cat: Catalog, leads: seq<Lead>) {
    forall i :: 0 <= i < |leads| ==> LeadComplete(cat, leads[i])
  }

  // ---------------------------------------------------------------------
  // Invariants

  lemma StartConsistent(cat: Catalog, s: Session)
    requires Consistent(cat, s)
    ensures Consistent(cat, HandleStart(s).session)
  {
  }

  lemma ConsentConsistent(cat: Catalog, s: Session, text: string)
    requires Consistent(cat, s) && s.state == Some(Consent)
    ensures Consistent(cat, HandleConsent(s, text).session)
  {
  }

  lemma FioConsistent(cat: Catalog, s: Session, text: string)
    requires Consistent(cat, s) && s.state == Some(Fio)
    ensures Consistent(cat, HandleFio(s, text).session)
  {
    assert IsTrimmed(Trim(text));
  }

  lemma PhoneConsistent(cat: Catalog, s: Session, text: string)
    requires Consistent(cat, s) && s.state == Some(Phone)
    ensures Consistent(cat, HandlePhone(cat, s, text).session)
  {
    assert IsTrimmed(Trim(text));
  }

  lemma DirectionConsistent(cat: Catalog, s: Session, text: string)
    requires Consistent(cat, s) && s.state == Some(Direction)
    ensures Consistent(cat, HandleDirection(cat, s, text).session)
    ensures AllComplete(cat, HandleDirection(cat, s, text).leads)
  {
  }

  lemma CourseTypeConsistent(cat: Catalog, s: Session, text: string)
    requires Consistent(cat, s) && s.state == Some(CourseType)
    ensures Consistent(cat, HandleCourseType(cat, s, text).session)
  {
  }

  lemma CourseSelectionConsistent(cat: Catalog, s: Session, text: string)
    requires Consistent(cat, s) && s.state == Some(CourseSelection)
    ensures Consistent(cat, HandleCourseSelection(cat, s, text).session)
  {
  }

  /** One message keeps a consistent session consistent, and the lead it
      may write is complete. */
  lemma StepConsistent(cat: Catalog, s: Session, input: Input)
    requires Consistent(cat, s)
    ensures Consistent(cat, Step(cat, s, input).session)
    ensures AllComplete(cat, Step(cat, s, input).leads)
  {
    match input
    case StartCommand => StartConsistent(cat, s);
    case Message(text) =>
      match s.state
      case None =>
      case Some(Consent) => ConsentConsistent(cat, s, text);
      case Some(Fio) => FioConsistent(cat, s, text);
      case Some(Phone) => PhoneConsistent(cat, s, text);
      case Some(Direction) => DirectionConsistent(cat, s, text);
      case Some(CourseType) => CourseTypeConsistent(cat, s, text);
      case Some(CourseSelection) => CourseSelectionConsistent(cat, s, text);
  }

  /** Every session a conversation passes through keeps the field order,
      and every lead it writes is complete. */
  lemma {:induction false} RunConsistent(cat: Catalog, s: Session, inputs: seq<Input>)
    requires Consistent(cat, s)
    ensures Consistent(cat, Run(cat, s, inputs).session)
    ensures AllComplete(cat, Run(cat, s, inputs).leads)
    decreases |inputs|
  {
    if |inputs| > 0 {
      var o := Step(cat, s, inputs[0]);
      StepConsistent(cat, s, inputs[0]);
      RunConsistent(cat, o.session, inputs[1..]);
    }
  }

  /** From a fresh (cleared) session, whatever the user sends. */
  lemma ReachableConsistent(cat: Catalog, inputs: seq<Input>)
    ensures Consistent(cat, Run(cat, Cleared, inputs).session)
    ensures AllComplete(cat, Run(cat, Cleared, inputs).leads)
  {
    RunConsistent(cat, Cleared, inputs);
  }

  // ---------------------------------------------------------------------
  // Validation failures

  /** The texts a validating state turns down. */
  predicate Rejected(cat: Catalog, s: Session, text: string) {
    match s.state
    case Some(Fio) => Trim(text) == []
    case Some(Phone) => Trim(text) == []
    case Some(Direction) => Trim(text) !in Keys(cat)
    case Some(CourseType) => Trim(text) != FreeLabel && Trim(text) != PaidLabel
    case Some(CourseSelection) =>
      var cs := CoursesOf(cat, s.direction, s.courseType);
      forall i :: 0 <= i < |cs| ==> cs[i].name != Trim(text)
    case _ => false
  }

  /** A turned-down text re-prompts and changes nothing. */
  lemma RejectedKeeps(cat: Catalog, s: Session, text: string)
    requires Rejected(cat, s, text)
    ensures var o := Step(cat, s, Message(text));
      o.session == s && o.leads == [] && o.reply.Answer? && o.reply.keyboard == KeepKeyboard
  {
  }

  /** Any run of turned-down messages leaves the session as it was and
      writes no lead. */
  lemma {:induction false} RunRejected(cat: Catalog, s: Session, inputs: seq<Input>)
    requires forall i :: 0 <= i < |inputs| ==> inputs[i].Message? && Rejected(cat, s, inputs[i].text)
    ensures Run(cat, s, inputs).session == s && Run(cat, s, inputs).leads == []
    decreases |inputs|
  {
    if |inputs| > 0 {
      RejectedKeeps(cat, s, inputs[0].text);
      RunRejected(cat, s, inputs[1..]);
    }
  }

  /** Re-prompting is idempotent: an input that leaves the session alone
      once leaves it alone however often it is repeated, with the same reply
      each time and no lead. */
  lemma {:induction false} RepeatedReprompt(cat: Catalog, s: Session, x: Input, n: nat)
    requires Step(cat, s, x).session == s
    ensures Run(cat, s, Repeat(x, n)) == Trace(s, Repeat(Step(cat, s, x).reply, n), [])
    decreases n
  {
    if n > 0 {
      assert Repeat(x, n)[1..] == Repeat(x, n - 1);
      RepeatedReprompt(cat, s, x, n - 1);
      assert [Step(cat, s, x).reply] + Repeat(Step(cat, s, x).reply, n - 1)
          == Repeat(Step(cat, s, x).reply, n);
    }
  }

  /** With an empty catalog (no spreadsheet at start-up) the direction step
      turns down every message: only `/start` leaves it. */
  lemma EmptyCatalogStuck(s: Session, texts: seq<string>)
    requires s.state == Some(Direction)
    ensures var inputs := seq(|texts|, i requires 0 <= i < |texts| => Message(texts[i]));
      Run([], s, inputs).session == s && Run([], s, inputs).leads == []
  {
    var inputs := seq(|texts|, i requires 0 <= i < |texts| => Message(texts[i]));
    RunRejected([], s, inputs);
  }

  /** Without a state (never started, refused, or finished) every message
      is dropped unanswered until `/start`. */
  lemma {:induction false} IdleIgnoresMessages(cat: Catalog, s: Session, inputs: seq<Input>)
    requires s.state == None
    requires forall i :: 0 <= i < |inputs| ==> inputs[i].Message?
    ensures Run(cat, s, inputs) == Trace(s, Repeat(NoReply, |inputs|), [])
    decreases |inputs|
  {
    if |inputs| > 0 {
      IdleIgnoresMessages(cat, s, inputs[1..]);
      assert [NoReply] + Repeat(NoReply, |inputs| - 1) == Repeat(NoReply, |inputs|);
    }
  }

  /** Refusing consent is final: the data is gone, no lead is ever written,
      and nothing the user sends afterwards, short of `/start`, is answered. */
  lemma RefusalIsFinal(cat: Catalog, s: Session, text: string, later: seq<Input>)
    requires s.state == Some(Consent) && text != ConsentLabel
    requires forall i :: 0 <= i < |later| ==> later[i].Message?
    ensures var t := Run(cat, s, [Message(text)] + later);
      && t.session == Cleared && t.leads == []
      && t.replies == [Answer(ConsentRequired, RemoveKeyboard)] + Repeat(NoReply, |later|)
  {
    assert ([Message(text)] + later)[1..] == later;
    IdleIgnoresMessages(cat, Cleared, later);
  }

  // ---------------------------------------------------------------------
  // Left-over data

  /** Two sessions in the same state whose fields agree wherever the form
      has already (re)filled them in this pass. */
  predicate Agree(s1: Session, s2: Session) {
    && s1.state == s2.state
    && (Rank(s1.state) >= Rank(Some(Phone)) ==> s1.fio == s2.fio)
    && (Rank(s1.state) >= Rank(Some(Direction)) ==> s1.phone == s2.phone)
    && (Rank(s1.state) >= Rank(Some(CourseType)) ==> s1.direction == s2.direction)
    && (s1.state == Some(CourseSelection) ==> s1.courseType == s2.courseType)
  }

  lemma StepAgree(cat: Catalog, s1: Session, s2: Session, input: Input)
    requires Agree(s1, s2)
    ensures var o1 := Step(cat, s1, input); var o2 := Step(cat, s2, input);
      o1.reply == o2.reply && o1.leads == o2.leads && Agree(o1.session, o2.session)
  {
    match input
    case StartCommand =>
    case Message(text) =>
      match s1.state
      case None =>
      case Some(Consent) =>
      case Some(Fio) =>
      case Some(Phone) =>
      case Some(Direction) =>
      case Some(CourseType) =>
      case Some(CourseSelection) =>
  }

  /** Sessions that agree on the filled-in fields answer every sequence of
      messages identically and write the same leads. */
  lemma {:induction false} RunAgree(cat: Catalog, s1: Session, s2: Session, inputs: seq<Input>)
    requires Agree(s1, s2)
    ensures var t1 := Run(cat, s1, inputs); var t2 := Run(cat, s2, inputs);
      t1.replies == t2.replies && t1.leads == t2.leads && Agree(t1.session, t2.session)
    decreases |inputs|
  {
    if |inputs| > 0 {
      StepAgree(cat, s1, s2, inputs[0]);
      RunAgree(cat, Step(cat, s1, inputs[0]).session, Step(cat, s2, inputs[0]).session, inputs[1..]);
    }
  }

  /** `/start` keeps the old data, but it is never seen: after `/start` the
      conversation answers and writes leads exactly as a fresh one would. */
  lemma RestartForgets(cat: Catalog, s: Session, inputs: seq<Input>)
    ensures var t1 := Run(cat, s, [StartCommand] + inputs);
            var t2 := Run(cat, Cleared, [StartCommand] + inputs);
      t1.replies == t2.replies && t1.leads == t2.leads
  {
    var a := HandleStart(s).session;
    var b := HandleStart(Cleared).session;
    assert Agree(a, b);
    assert ([StartCommand] + inputs)[1..] == inputs;
    RunAgree(cat, a, b, inputs);
  }

  // ---------------------------------------------------------------------
  // Buttons round-trip on a built catalog

  /** Pressing an offered direction button is always accepted: the stored
      keys are trimmed, so the button text survives the handler's trim. */
  lemma OfferedDirectionAccepted(cat: Catalog, s: Session, d: string)
    requires AllTrimmed(cat) && d in Keys(cat)
    ensures var o := HandleDirection(cat, s, d);
      && o.session == s.(state := Some(CourseType), direction := Some(d))
      && o.leads == [Lead(s.fio, s.phone, d)]
  {
    KeyTrimmed(cat, d);
    TrimFixpoint(d);
  }

  /** Pressing an offered course-type button is accepted exactly when it is
      one of the two fixed labels; an accepted one always finds courses. */
  lemma OfferedTypeOutcome(cat: Catalog, s: Session, d: string, t: string)
    requires WellFormed(cat) && AllTrimmed(cat)
    requires s.direction == Some(d) && d in Keys(cat) && t in TypeKeys(cat, d)
    ensures var o := HandleCourseType(cat, s, t);
      && (t == FreeLabel || t == PaidLabel ==>
            o.session == s.(state := Some(CourseSelection), courseType := Some(t)))
      && (t != FreeLabel && t != PaidLabel ==> o.session == s && o.leads == [])
  {
    TypeKeyTrimmed(cat, d, t);
    TrimFixpoint(t);
    LookupNonEmpty(cat, d, t);
  }

  /** Pressing the i-th offered course button sends the link of the first
      course of that name in the full list, which is the i-th course itself
      unless an earlier one shares its name, and ends the conversation. */
  lemma OfferedCourseChosen(cat: Catalog, s: Session, i: int)
    requires AllTrimmed(cat)
    requires 0 <= i < |Shown(CoursesOf(cat, s.direction, s.courseType))|
    ensures var cs := CoursesOf(cat, s.direction, s.courseType);
      var o := HandleCourseSelection(cat, s, cs[i].name);
      var k := FirstNamed(cs, cs[i].name);
      && k <= i
      && o == Outcome(Cleared, Answer(CourseLink(cs[i].name, cs[k].link), RemoveKeyboard), [])
  {
    var cs := CoursesOf(cat, s.direction, s.courseType);
    CourseIsTrimmed(cat, s.direction.value, s.courseType.value, i);
    TrimFixpoint(cs[i].name);
  }
}
