# Course-search bot: catalog and intake form

A model of the two pieces of logic in `main.py` of the course-search
Telegram bot:

- **The course catalog** the bot builds once at start-up from the rows of
  the courses spreadsheet. Each row carries a direction, a course type, a
  course name and a link. All four cells are stripped of surrounding
  whitespace, and the rows are folded into a two-level lookup: direction →
  course type → courses. The lookup is modelled as association sequences
  (`Courses.Catalog`) so that dictionary insertion order is kept, because
  that order is the order of the buttons the bot offers.
- **The intake form**, a linear finite-state conversation: consent → full
  name → phone → direction → course type → course, ending with the
  session cleared. Each handler is a pure function from the catalog, the
  user's session and the message text to an `Outcome`. An outcome is the
  new session, the bot's reply (a prompt tag and what happens to the reply
  keyboard), and the lead rows written to the leads worksheet on that step.
  `Form.Step` is the dispatcher. `Conversation.Run` feeds it a whole
  sequence of messages. The leads an outcome writes are an ordinary field
  of `Form.Outcome`, the rows the bot appends to the leads worksheet on
  that step, so contracts can say exactly which rows each message writes.

Modules:

| file | module | what it holds |
|---|---|---|
| `Wrappers.dfy` | `Wrappers` | `Option` |
| `Strings.dfy` | `Strings` | Python's `str.strip()` and `str.isspace()` |
| `Courses.dfy` | `Courses` | catalog, readers, builder, and a row-only reference description of the builder's result |
| `Form.dfy` | `Form` | states, sessions, replies, the seven handlers and the dispatcher |
| `Conversation.dfy` | `Conversation` | runs over message sequences, the session invariant, re-prompt idempotence, stale data after `/start`, button round trips |
| `Scenarios.dfy` | `Scenarios` | worked conversations on a one-row catalog |

The builder's result is also described a second time from the rows alone
(`Courses.Directions`, `TypesUnder`, `Matching`, `Dedup`). The `Build*`
lemmas prove that the builder agrees with that description.

Points where the code's behaviour is easy to misread:

- The two accepted course types are the literal labels "Бесплатные" and
  "Платные" (main.py:178).
- Course selection searches the full course list for the stored direction
  and type, not only the five courses offered as buttons (main.py:208-209).
  A course beyond the fifth is found when its name is typed.
- `/start` sets the consent state but does not clear the stored data
  (main.py:113). `Conversation.RestartForgets` proves that the stale data
  is never observable: after `/start`, replies and leads are those of a
  fresh session.
- The consent answer is compared without stripping (main.py:118), unlike
  every later answer.
- The fallback to an empty catalog covers only a missing credentials file
  (main.py:98-103), not every failure to reach the spreadsheet.

## Model

| member | source | states |
|---|---|---|
| Strings.Trim | main.py:128 | the result of `strip()` has no whitespace at either end and is no longer than the input |
| Strings.TrimUnique | main.py:128 | any infix of the text with whitespace margins on both sides and no whitespace at its own ends is what `strip()` returns, so the result is exactly the text between the margins |
| Strings.TrimFixpoint | main.py:128 | a text survives `strip()` unchanged exactly when neither end is whitespace |
| Strings.TrimIdempotent | main.py:128 | stripping twice gives the same text as stripping once |
| Courses.IndexOf | main.py:78 | the first position of a present key, with no occurrence before it |
| Courses.DedupMembers | main.py:78-79 | the keys of the de-duplicated list are exactly the keys of the list |
| Courses.DedupDistinct | main.py:78-79 | the de-duplicated list has no repeated key |
| Courses.DedupOrder | main.py:78-79 | de-duplicated keys appear in the order of their first occurrence |
| Courses.TypeNamesAdd | main.py:80-81 | adding a course lists its course type once, at the end if it is new |
| Courses.KeysAdd | main.py:78-79 | adding a course lists its direction once, at the end if it is new |
| Courses.TypeKeysAdd | main.py:78-81 | adding a course changes only its own direction's type keys, by appending the type if it is new |
| Courses.CoursesInAdd | main.py:80-85 | adding a course appends it to its own type's list and to no other list |
| Courses.LookupAdd | main.py:78-85 | adding a course appends it to the one (direction, type) list it belongs to; every other list is unchanged |
| Courses.CountInAdd | main.py:82-85 | adding a course to one direction's types adds exactly one course |
| Courses.CountAdd | main.py:82-85 | adding a course to the catalog adds exactly one course |
| Courses.AddToTypesWellFormed | main.py:80-85 | adding a course keeps the course types distinct and every course list non-empty |
| Courses.AddToTypesCourses | main.py:80-85 | after adding a course every course list is still non-empty |
| Courses.AddEntries | main.py:78-85 | adding a course keeps every direction's types well formed |
| Courses.AddWellFormed | main.py:78-85 | adding a course keeps directions distinct, types distinct and no list empty |
| Courses.AddToTypesTrimmed | main.py:73-76 | adding a stripped course under a stripped type keeps every stored string stripped |
| Courses.AddTrimmed | main.py:73-76 | adding a stripped course under stripped keys keeps the whole catalog stripped |
| Courses.BuildKeys | main.py:71-87 | the directions are the stripped direction cells, without repeats, in order of first appearance |
| Courses.BuildTypeKeys | main.py:71-87 | each direction's course types are the stripped type cells of that direction's rows, without repeats, in order of first appearance |
| Courses.BuildLookup | main.py:71-87 | the list under (direction, type) is exactly the stripped (name, link) of the rows with those stripped keys, in row order |
| Courses.BuildCount | main.py:71-87 | the catalog holds exactly one course per row |
| Courses.BuildWellFormed | main.py:71-87 | directions are distinct, each direction's types are distinct and non-empty, and no course list is empty |
| Courses.BuildTrimmed | main.py:73-76 | every stored direction, type, name and link is stripped |
| Courses.BuildCatalog | main.py:71-87 | the structuring loop: one course per row; directions are the distinct trimmed row directions in first-seen order; each (direction, type) list is exactly the matching rows in row order; each direction's types are its distinct trimmed types in first-seen order; well formed with every string trimmed |
| Courses.CoursesInNonEmpty | main.py:186-187 | in a catalog without empty lists, a type's lookup is non-empty exactly when the type is stored |
| Courses.TypesOfEntry | main.py:186 | a stored direction has well-formed types; an unknown direction has none |
| Courses.LookupNonEmpty | main.py:186-187 | in a well-formed catalog the courses for (direction, type) are non-empty exactly when the direction is a key and the type is one of its type keys |
| Courses.KeyTrimmed | main.py:73 | every direction key of a stripped catalog is stripped |
| Courses.TypesOfTrimmed | main.py:74-76 | a direction's types in a stripped catalog are stripped |
| Courses.TypeNameTrimmed | main.py:74 | every type key of stripped types is stripped |
| Courses.CoursesInTrimmed | main.py:75-76 | every course in a stripped catalog's list has a stripped name and link |
| Courses.TypeKeyTrimmed | main.py:74 | every type key offered for a direction of a stripped catalog is stripped |
| Courses.CourseIsTrimmed | main.py:75-76 | every course a lookup returns from a stripped catalog has a stripped name and link |
| Form.FirstNamed | main.py:209 | the position of the first course with the given name, or the list length when there is none |
| Form.HandleStart | main.py:106-113 | `/start` enters the consent state, keeps every stored field, offers the consent button and writes no lead |
| Form.HandleConsent | main.py:116-123 | the state becomes the name step exactly when the unstripped text is the consent label; any other text clears state and data; no lead either way |
| Form.HandleFio | main.py:126-134 | an empty stripped name changes nothing and re-prompts; otherwise the stripped name is stored and the phone step follows |
| Form.HandlePhone | main.py:137-150 | an empty stripped phone changes nothing; otherwise the stripped phone is stored, the direction step follows and the offered labels are the catalog's directions in order |
| Form.HandleDirection | main.py:153-172 | a stripped text that is no direction changes nothing and writes no lead; a direction is stored, exactly one lead (name, phone, direction) is written and that direction's course types are offered |
| Form.HandleCourseType | main.py:175-198 | only the two labels are accepted; an accepted type whose list is missing or empty clears the session with a not-found reply; otherwise the type is stored, the selection step follows and the first min(L, 5) course names are offered in order |
| Form.HandleCourseSelection | main.py:201-221 | the first course in the full list whose name is the stripped text gives the reply link and the session is cleared; with no such course nothing changes |
| Form.Step | main.py:105-221 | at most one lead per message, written only at the direction step as (stored name, stored phone, new direction); a message without a state is dropped unanswered |
| Conversation.Run | main.py:105-221 | a run over a message sequence has one reply entry per message (`NoReply` for a dropped one) and no more leads than messages |
| Conversation.StartConsistent | main.py:106-113 | `/start` keeps the session invariant |
| Conversation.ConsentConsistent | main.py:116-123 | the consent step keeps the session invariant |
| Conversation.FioConsistent | main.py:126-134 | the name step keeps the session invariant; a stored name is non-empty and stripped |
| Conversation.PhoneConsistent | main.py:137-150 | the phone step keeps the session invariant; a stored phone is non-empty and stripped |
| Conversation.DirectionConsistent | main.py:153-172 | the direction step keeps the session invariant, and the lead it writes has a name, a phone and a catalog direction |
| Conversation.CourseTypeConsistent | main.py:175-198 | the course-type step keeps the invariant; the selection step is entered only with a non-empty course list |
| Conversation.CourseSelectionConsistent | main.py:201-221 | the selection step keeps the session invariant |
| Conversation.StepConsistent | main.py:105-221 | one message keeps the invariant (fields filled in form order, valid stored values) and writes only complete leads |
| Conversation.RunConsistent | main.py:105-221 | every session a conversation reaches from a consistent one is consistent, and every lead it writes is complete |
| Conversation.ReachableConsistent | main.py:105-221 | from a fresh session, whatever the messages: the name is set from the phone step on, the phone from the direction step on, the direction from the course-type step on, the course type in the selection step; every lead is complete |
| Conversation.RejectedKeeps | main.py:126-213 | a text a validating step turns down leaves the session unchanged, writes no lead and keeps the keyboard |
| Conversation.RunRejected | main.py:126-213 | any number of turned-down texts leave state and stored fields unchanged and write no lead |
| Conversation.RepeatedReprompt | main.py:126-213 | an input that leaves the session alone once does so every time it is repeated, with the same reply each time and no lead |
| Conversation.EmptyCatalogStuck | main.py:98-103 | with the empty fallback catalog the direction step turns down every message and writes no lead |
| Conversation.IdleIgnoresMessages | main.py:105-221 | without a state every message other than `/start` is dropped unanswered and changes nothing |
| Conversation.RefusalIsFinal | main.py:121-123 | refusing consent clears all data and writes no lead, and later messages other than `/start` get no reply |
| Conversation.StepAgree | main.py:105-221 | two sessions in the same state that agree on the fields filled so far answer a message identically and still agree afterwards |
| Conversation.RunAgree | main.py:105-221 | such sessions answer any message sequence identically and write the same leads |
| Conversation.RestartForgets | main.py:106-113 | data left over before `/start` never shows: replies and leads after `/start` are those of a fresh session |
| Conversation.OfferedDirectionAccepted | main.py:146-159 | pressing an offered direction button of a stripped catalog is always accepted and writes its lead |
| Conversation.OfferedTypeOutcome | main.py:168-198 | pressing an offered course-type button is accepted exactly when it is one of the two labels, and then always finds courses; any other offered type is turned down |
| Conversation.OfferedCourseChosen | main.py:193-221 | pressing the i-th offered course button sends the link of the first course of that name, at a position no later than i, and clears the session |
| Scenarios.SampleCatalog | main.py:71-87 | a row with padded cells builds a catalog with the stripped direction and course |
| Scenarios.HappyPath | main.py:105-221 | the full conversation from `/start` to the link: every reply in order, the session cleared, exactly one lead with the stripped name |
| Scenarios.UnknownDirection | main.py:155-158 | a direction not in the catalog re-prompts, keeps the session and writes no lead |
| Scenarios.NoPaidCourses | main.py:186-190 | an accepted type with no courses under the stored direction clears the session with the not-found reply |

## Left out

- The aiogram bot, dispatcher, in-memory FSM storage, async handlers, polling and logging (main.py:22-28, 224-234). These are transport; the handlers are synchronous pure functions and one user's session is passed explicitly.
- Recognising `/start` (aiogram's `CommandStart` filter, which runs before the state handlers) is left to the transport. It becomes the `StartCommand` input.
- Messages without text. The model's messages always carry text.
- The prompt texts in Russian. Replies are tags. Only the three compared labels are kept as strings.
- Keyboard construction (main.py:40-44). A reply records only whether the keyboard is kept, removed, or replaced by buttons with given labels in order.
- Google Sheets access (main.py:47-68, 89-96). The rows are an input sequence, and the leads written are an output sequence in each `Outcome`.
- The `.env` file, the credentials check and the fallback to an empty catalog (main.py:19, 49-50, 98-103). An empty catalog is an ordinary input (`Conversation.EmptyCatalogStuck`).
- Spreadsheet cells that are not strings, and missing columns. Both would fail at `strip()` (main.py:73-76). Every cell is a string here.
- A failed lead write (main.py:165 has no error handling). The append always succeeds.
- Several users at once. One session is modelled at a time; sessions of different users never interact.
