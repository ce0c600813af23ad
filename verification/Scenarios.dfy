/**
  Worked conversations on a one-row catalog: the happy path from `/start`
  to the course link, and the two ways a conversation is turned back.
*/
module Scenarios {
  import opened Wrappers
  import opened Strings
  import opened Courses
  import opened Form
  import opened Conversation

  /** One spreadsheet row, with stray spaces around two of its cells. */
  const SampleRows: seq<Row> := [Row(" Data", FreeLabel, "Intro ", "http://a")]

  /** What `SampleRows` builds: one direction "Data" with one free course
      "Intro" at "http://a". */
  const Sample: Catalog := [DirEntry("Data", [TypeEntry(FreeLabel, [Course("Intro", "http://a")])])]

  // What `Trim` does to the texts used below, one fact per lemma.

  lemma TrimSpacedDirection() ensures Trim(" Data") == "Data" { TrimUnique(" Data", 1, 5); }
  lemma TrimSpacedCourse() ensures Trim("Intro ") == "Intro" { TrimUnique("Intro ", 0, 5); }
  lemma TrimSpacedName() ensures Trim(" Jane Doe ") == "Jane Doe" { TrimUnique(" Jane Doe ", 1, 9); }
  lemma TrimSpacedUnknown() ensures Trim(" Math ") == "Math" { TrimUnique(" Math ", 1, 5); }
  lemma TrimKeepsLink() ensures Trim("http://a") == "http://a" { assert IsTrimmed("http://a"); TrimFixpoint("http://a"); }
  lemma TrimKeepsDirection() ensures Trim("Data") == "Data" { assert IsTrimmed("Data"); TrimFixpoint("Data"); }
  lemma TrimKeepsCourse() ensures Trim("Intro") == "Intro" { assert IsTrimmed("Intro"); TrimFixpoint("Intro"); }
  lemma TrimKeepsPhone() ensures Trim("555-0100") == "555-0100" { assert IsTrimmed("555-0100"); TrimFixpoint("555-0100"); }
  lemma TrimKeepsFree() ensures Trim(FreeLabel) == FreeLabel { assert IsTrimmed(FreeLabel); TrimFixpoint(FreeLabel); }
  lemma TrimKeepsPaid() ensures Trim(PaidLabel) == PaidLabel { assert IsTrimmed(PaidLabel); TrimFixpoint(PaidLabel); }

  // How the sample catalog answers the readers the handlers use.

  lemma SampleKeys() ensures Keys(Sample) == ["Data"] { assert Sample[1..] == []; }
  lemma SampleTypeKeys() ensures TypeKeys(Sample, "Data") == [FreeLabel] {
    var types := [TypeEntry(FreeLabel, [Course("Intro", "http://a")])];
    assert TypesOf(Sample, "Data") == types;
    assert types[1..] == [];
    assert TypeNames(types) == [FreeLabel] + TypeNames([]);
  }
  lemma SampleFree() ensures Lookup(Sample, "Data", FreeLabel) == [Course("Intro", "http://a")] { }
  lemma SamplePaid() ensures Lookup(Sample, "Data", PaidLabel) == [] {
    var types := [TypeEntry(FreeLabel, [Course("Intro", "http://a")])];
    assert TypesOf(Sample, "Data") == types;
    assert types[0].courseType != PaidLabel;
    assert types[1..] == [];
    assert CoursesIn(types, PaidLabel) == CoursesIn([], PaidLabel);
  }

  /** The builder trims the cells of the sample row. */
  lemma SampleCatalog()
    ensures Build(SampleRows) == Sample
  {
    TrimSpacedDirection();
    TrimSpacedCourse();
    TrimKeepsLink();
    TrimKeepsFree();
    assert SampleRows[..0] == [];
  }

  // The sessions the happy path passes through.
  const AtConsent: Session := Session(Some(Consent), None, None, None, None)
  const AtFio: Session := AtConsent.(state := Some(Fio))
  const AtPhone: Session := AtFio.(state := Some(Phone), fio := Some("Jane Doe"))
  const AtDirection: Session := AtPhone.(state := Some(Direction), phone := Some("555-0100"))
  const AtCourseType: Session := AtDirection.(state := Some(CourseType), direction := Some("Data"))
  const AtCourseSelection: Session := AtCourseType.(state := Some(CourseSelection), courseType := Some(FreeLabel))

  const SampleLead: Lead := Lead(Some("Jane Doe"), Some("555-0100"), "Data")
  const SampleLink: Reply := Answer(CourseLink("Intro", "http://a"), RemoveKeyboard)

  // The happy path's messages, each suffix named by the step it starts at.
  const PickIntro: seq<Input> := [Message("Intro")]
  const PickFree: seq<Input> := [Message(FreeLabel)] + PickIntro
  const PickData: seq<Input> := [Message("Data")] + PickFree
  const GivePhone: seq<Input> := [Message("555-0100")] + PickData
  const GiveName: seq<Input> := [Message(" Jane Doe ")] + GivePhone
  const GiveConsent: seq<Input> := [Message(ConsentLabel)] + GiveName
  const HappyInputs: seq<Input> := [StartCommand] + GiveConsent

  // The bot's replies from each step on.
  const LinkReply: seq<Reply> := [SampleLink]
  const CourseReplies: seq<Reply> := [Answer(AskCourse, Buttons(["Intro"]))] + LinkReply
  const TypeReplies: seq<Reply> := [Answer(AskCourseType, Buttons([FreeLabel]))] + CourseReplies
  const DirectionReplies: seq<Reply> := [Answer(AskDirection, Buttons(["Data"]))] + TypeReplies
  const PhoneReplies: seq<Reply> := [Answer(AskPhone, RemoveKeyboard)] + DirectionReplies
  const FioReplies: seq<Reply> := [Answer(AskFio, RemoveKeyboard)] + PhoneReplies
  const HappyReplies: seq<Reply> := [Answer(AskConsent, Buttons([ConsentLabel]))] + FioReplies

  lemma HappyFromCourseSelection()
    ensures Run(Sample, AtCourseSelection, PickIntro) == Trace(Cleared, LinkReply, [])
  {
    TrimKeepsCourse();
    assert HandleCourseSelection(Sample, AtCourseSelection, "Intro") == Outcome(Cleared, SampleLink, []);
  }

  lemma HappyFromCourseType()
    ensures Run(Sample, AtCourseType, PickFree) == Trace(Cleared, CourseReplies, [])
  {
    HappyFromCourseSelection();
    TrimKeepsFree();
    SampleFree();
    var o := HandleCourseType(Sample, AtCourseType, FreeLabel);
    assert o.session == AtCourseSelection && o.leads == [];
    assert o.reply == Answer(AskCourse, Buttons(["Intro"]));
    assert PickFree[1..] == PickIntro;
  }

  lemma HappyFromDirection()
    ensures Run(Sample, AtDirection, PickData) == Trace(Cleared, TypeReplies, [SampleLead])
  {
    HappyFromCourseType();
    TrimKeepsDirection();
    SampleKeys();
    SampleTypeKeys();
    var o := HandleDirection(Sample, AtDirection, "Data");
    assert o == Outcome(AtCourseType, Answer(AskCourseType, Buttons([FreeLabel])), [SampleLead]);
    assert PickData[1..] == PickFree;
  }

  lemma HappyFromPhone()
    ensures Run(Sample, AtPhone, GivePhone) == Trace(Cleared, DirectionReplies, [SampleLead])
  {
    HappyFromDirection();
    TrimKeepsPhone();
    SampleKeys();
    var o := HandlePhone(Sample, AtPhone, "555-0100");
    assert o == Outcome(AtDirection, Answer(AskDirection, Buttons(["Data"])), []);
    assert GivePhone[1..] == PickData;
  }

  lemma HappyFromFio()
    ensures Run(Sample, AtFio, GiveName) == Trace(Cleared, PhoneReplies, [SampleLead])
  {
    HappyFromPhone();
    TrimSpacedName();
    var o := HandleFio(AtFio, " Jane Doe ");
    assert o == Outcome(AtPhone, Answer(AskPhone, RemoveKeyboard), []);
    assert GiveName[1..] == GivePhone;
  }

  lemma HappyFromConsent()
    ensures Run(Sample, AtConsent, GiveConsent) == Trace(Cleared, FioReplies, [SampleLead])
  {
    HappyFromFio();
    assert HandleConsent(AtConsent, ConsentLabel) == Outcome(AtFio, Answer(AskFio, RemoveKeyboard), []);
    assert GiveConsent[1..] == GiveName;
  }

  /** The messages and replies of the happy path, spelt out. */
  lemma HappyTranscript()
    ensures HappyInputs == [StartCommand, Message(ConsentLabel), Message(" Jane Doe "), Message("555-0100"),
                            Message("Data"), Message(FreeLabel), Message("Intro")]
    ensures HappyReplies ==
      [Answer(AskConsent, Buttons([ConsentLabel])), Answer(AskFio, RemoveKeyboard),
       Answer(AskPhone, RemoveKeyboard), Answer(AskDirection, Buttons(["Data"])),
       Answer(AskCourseType, Buttons([FreeLabel])), Answer(AskCourse, Buttons(["Intro"])),
       Answer(CourseLink("Intro", "http://a"), RemoveKeyboard)]
  {
  }

  /** The whole happy path on the sample catalog, `/start` to the course
      link: every reply in order, the session cleared at the end, and
      exactly one lead, carrying the trimmed name. */
  lemma HappyPath()
    ensures Run(Sample, Cleared, HappyInputs) == Trace(Cleared, HappyReplies, [SampleLead])
  {
    HappyFromConsent();
    assert HandleStart(Cleared) == Outcome(AtConsent, Answer(AskConsent, Buttons([ConsentLabel])), []);
    assert HappyInputs[1..] == GiveConsent;
  }

  /** A direction that is not in the catalog keeps the user at the direction
      step and writes no lead. */
  lemma UnknownDirection(s: Session)
    ensures HandleDirection(Sample, s, " Math ") == Outcome(s, Answer(PickDirection, KeepKeyboard), [])
  {
    TrimSpacedUnknown();
    SampleKeys();
  }

  /** An accepted course type with no courses under the stored direction
      clears the session with a not-found reply. */
  lemma NoPaidCourses(s: Session)
    requires s.direction == Some("Data")
    ensures HandleCourseType(Sample, s, PaidLabel) == Outcome(Cleared, Answer(CoursesNotFound, KeepKeyboard), [])
  {
    TrimKeepsPaid();
    SamplePaid();
  }
}
