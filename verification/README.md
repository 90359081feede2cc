# School console screens in Dafny

This project models the logic of the administration console of a school
management system: a React single-page application whose screens list, filter,
add, edit and delete the school's records (students, user accounts, tutors,
evaluations, class schedules, attendance, newsletters, school years, subjects,
subjects taken and sections), a dashboard that counts registrations per day,
and a profile page for the signed-in user.

Every list screen has the same shape. Its React state (the list, the modal
form, `showModal`, `editMode`, the selected record and the filter) is a Dafny
`class` whose methods are the event handlers. Each handler states its whole
new state. The filter expression each screen renders is a pure function over
the list. Shared behaviour lives in two modules:

- `Js` holds the slice of JavaScript value semantics the screens rely on.
  JSON field values may be `undefined`, `null`, a string or an integer. The
  module covers truthiness, `||`, `toString` (a TypeError on `null` and
  `undefined`), template interpolation, ASCII `toLowerCase`,
  `String.prototype.includes` and `split(c)[0]`. An expression that may throw
  evaluates to `Eval<T>` (`Throws` or `Returns(v)`). A filter whose callback
  throws makes the render throw.
- `Crud` holds the requests a screen sends and the responses it may get back.
  A handler either checks `response.ok` (`ChecksOk`) or does not
  (`IgnoresStatus`). `Refreshed` gives the list a fetch leaves behind.
  `SaveTarget` is PUT to the selected record's URL in edit mode and POST to the
  collection otherwise. `Keep` is `Array.prototype.filter` with a callback that
  may throw.

The network is a parameter. A handler receives the outcome of its awaited
`fetch` (a network failure or an HTTP status) and the reply of the refetch
that follows it. It returns the request it sends.

The dashboard's per-day tally is a method with a loop. It is proved against
`Dedup` (distinct dates in order of first appearance) and `multiset` counts.

In four places the code behaves in a way a reader might not expect; the
model follows the code:

- `Dashboard.DashboardScreen.FetchDashboardData`: `setTotalUsers` runs before
  the `reduce`. A `created_at` that is not a string makes the reduce throw
  after the total has already been stored. So a thrown error leaves the total
  unchanged only when a `fetch` or a `json()` call fails. When the reduce
  throws, the chart is unchanged but the total is updated.
- `Profile.ProfileScreen`: `setUsers` is missing when the profile is rendered
  by the plain route in `src/components/AppContent.js:22`. It is present
  through `src/components/ProfileWrapper/ProfileWrapper.js`. Calling the
  missing `setUsers` throws into the handler's `catch`, so the account list
  changes only when the screen is `linked`. The profile never sets
  `showModal` to true.
- Several save handlers never look at `response.ok`: the newsletters, school
  year, subjects, sections and tutors screens. A rejected save still refetches,
  closes the modal and resets the form there.
- `SchoolYear.SchoolYearScreen.Save`: nothing on the school year screen calls
  `handleSaveSchoolYear` (src/components/schoolYear/SchoolYear.js:55). Only the
  add, edit and delete buttons are wired up (lines 144, 190 and 193), so the
  modal offers no way to save. The model keeps the handler as written, but the
  user interface cannot reach it.

## Model

| member | source | states |
|---|---|---|
| Js.Or | src/components/users/UserCRUD.js:96 | `a \|\| b` is truthy iff either operand is; it is `a` when `a` is truthy and `b` otherwise |
| Js.Lower | src/components/users/UserCRUD.js:141-142 | ASCII lower-casing keeps the length and lowers each character on its own |
| Js.LowerIdempotent | src/components/users/UserCRUD.js:141-142 | lower-casing an already lower-cased filter changes nothing |
| Js.Truthy | src/components/users/UserCRUD.js:96 | a value is truthy iff it is none of `undefined`, `null`, `''` and `0` |
| Js.Includes | src/components/Evaluations/Evaluations.js:141-145 | a string includes each of its prefixes, the empty string among them, and nothing longer than itself |
| Js.Interpolate | src/components/Sections/sections.js:107-108 | a template literal gives a string back unchanged, spells a non-string as non-empty text, a non-negative number as digits that read back as the number, a negative one with a leading '-' |
| Js.IncludesIff | src/components/Evaluations/Evaluations.js:141-145 | the left-to-right `includes` scan is true exactly when the text occurs at some position of the string |
| Js.IncludesEmpty | src/components/Evaluations/Evaluations.js:141-145 | every string includes the empty filter |
| Js.IncludesPrefix | src/components/subjectsTaken/SubjectsTaken.js:127-131 | a string that includes a text also includes every prefix of it |
| Js.BeforeFirst | src/components/registration/students.js:94-96 | `split(c)[0]` is a prefix of the string without `c`, and it stops only at a `c` |
| Js.DigitChar | src/components/Sections/sections.js:107-108 | a decimal digit is spelled with a character from '0' to '9' |
| Js.NatToString | src/components/Sections/sections.js:107-108 | the decimal spelling of a natural number is a non-empty run of digits with no leading zero |
| Js.ParseNatToString | src/components/Sections/sections.js:107-108 | reading the decimal spelling back gives the number: `toString` loses nothing |
| Js.IntToString | src/components/Sections/sections.js:107-108 | an integer's spelling is non-empty, all digits when non-negative, and starts with '-' when negative |
| Js.ToText | src/components/Evaluations/Evaluations.js:143-144 | `toString()` throws exactly on `null` and `undefined` and otherwise gives the interpolated text |
| Js.TruthyTextNonEmpty | src/components/registration/tutors.js:122 | the text of a truthy value exists and is never empty |
| Js.ToLowerCase | src/components/Newsletters/gradeReports.js:139 | `toLowerCase()` succeeds exactly on strings; its result is the lower-cased string |
| Js.StrIncludes | src/components/Attendance/Attendance.js:131-132 | `includes` called on a field succeeds exactly when the field is a string; its result is the `includes` scan of the string |
| Js.MatchesIgnoringCase | src/components/users/UserCRUD.js:140-143 | `v && v.toLowerCase().includes(f.toLowerCase())` throws exactly on a truthy non-string, and is true exactly for a non-empty string containing the filter ignoring case |
| Js.SplitHead | src/components/users/UserCRUD.js:94 | `split(c)[0]` succeeds exactly on strings and gives the prefix before the first `c`: it has no `c`, and it ends at a `c` or at the end of the string |
| Crud.PoliciesDifferOnlyOnRejection | src/components/Sections/sections.js:54-62 | a handler that checks `response.ok` goes on only where one that ignores the status also does; the two differ on exactly the rejected response |
| Crud.Refreshed | src/components/subjectsTaken/SubjectsTaken.js:41-52 | after a fetch the list is either kept or the reply's body; no reply keeps it, a non-ok reply keeps it when the status is checked, and otherwise the body replaces it |
| Crud.ItemUrl | src/components/registration/students.js:62-64 | `${base}/${id}` starts with the base and a slash and ends with the id's text |
| Crud.SaveTarget | src/components/registration/students.js:62-70 | a save is PUT iff a record is being edited, to that record's URL (never the collection's), and POST to the collection otherwise |
| Crud.DeleteTarget | src/components/users/UserCRUD.js:104-106 | a delete is DELETE to the collection URL followed by the id's text |
| Crud.Keep | src/components/registration/students.js:145-150 | `filter` throws iff its callback throws on some element; otherwise it keeps, in order and unaltered, exactly the elements the callback accepts, each as often as it occurs; the result is never longer than the list |
| Crud.KeepAll | src/components/Attendance/Attendance.js:129-133 | a callback that accepts everything gives back the whole list |
| Crud.KeepCongruent | src/components/subjects/Subjects.js:112-116 | two callbacks that agree on every element filter a list alike |
| Crud.Select | src/components/registration/tutors.js:121-123 | `filter` with a callback that cannot throw keeps, in order, exactly the elements it accepts, and is never longer than the list |
| Students.EditForm | src/components/registration/students.js:86-105 | the edit form copies every field, cuts the date of birth at the first 'T' ('' when falsy), and throws only on a truthy non-string date |
| Students.Shows | src/components/registration/students.js:145-150 | the callback throws iff the first name is truthy but not a string, and accepts iff the first name is a non-empty string containing the name filter ignoring case and the section is truthy with a text containing the section filter |
| Students.FilteredStudents | src/components/registration/students.js:145-150 | the filter throws iff the callback throws on some row; otherwise it keeps, in order, exactly the rows the callback accepts; each kept entry appears as often as in the input |
| Students.FilteredStudentsThrows | src/components/registration/students.js:145-150 | the students filter throws iff some first name is truthy but not a string |
| Students.StudentShownIff | src/components/registration/students.js:145-150 | a student is shown iff its first name is a non-empty string containing the name filter ignoring case and its section is truthy with a text containing the section filter; the shown list is an order-preserving sub-sequence |
| Students.UnfilteredStillHides | src/components/registration/students.js:147-149 | with both filters empty a student is still hidden when its first name is empty or its section id is falsy, and shown otherwise |
| Students.StudentsScreen.constructor | src/components/registration/students.js:25-42 | the screen starts with no students, a blank form, the modal closed, no edit mode, nothing selected and empty filters |
| Students.StudentsScreen.Fetch | src/components/registration/students.js:50-58 | the list becomes the reply's body whatever its status, and stays when the fetch fails; nothing else changes |
| Students.StudentsScreen.OpenForAdd | src/components/registration/students.js:156 | the add button opens the modal and changes nothing else |
| Students.StudentsScreen.Edit | src/components/registration/students.js:86-105 | the student is selected; if its form can be built the form is filled, edit mode is on and the modal opens, otherwise only the selection changed |
| Students.StudentsScreen.ResetForm | src/components/registration/students.js:123-139 | all eleven inputs become '', edit mode is off and nothing is selected; the list, modal and filter are untouched |
| Students.StudentsScreen.CloseModal | src/components/registration/students.js:230 | the modal closes and the form is reset |
| Students.StudentsScreen.FilterChange | src/components/registration/students.js:141-143 | only the named filter key takes the new value |
| Students.StudentsScreen.Save | src/components/registration/students.js:60-84 | the request is PUT to the edited student or POST; an ok response refetches, closes the modal and resets the form; any other outcome changes nothing |
| Students.StudentsScreen.Delete | src/components/registration/students.js:107-121 | the request is DELETE to the student's URL; only an ok response refetches the list |
| Users.EditForm | src/components/users/UserCRUD.js:84-100 | the edit form copies the account, always clears the password, cuts the date of birth at the first 'T' ('' when falsy), turns a falsy status into 'active', and throws only on a truthy non-string date |
| Users.Shows | src/components/users/UserCRUD.js:139-145 | the callback throws iff the first name is a truthy non-string, or it matches and the email is a truthy non-string; it accepts iff first name and email are non-empty strings each containing its filter ignoring case |
| Users.FilteredUsers | src/components/users/UserCRUD.js:139-145 | the filter throws iff the callback throws on some row; otherwise it keeps, in order, exactly the rows the callback accepts; each kept entry appears as often as in the input |
| Users.FilteredUsersThrows | src/components/users/UserCRUD.js:139-145 | the users filter throws iff some first name is a truthy non-string, or some matching first name comes with a truthy non-string email |
| Users.UserShownIff | src/components/users/UserCRUD.js:139-145 | an account is shown iff its first name and email are non-empty strings each containing its filter ignoring case; order is preserved |
| Users.Unassigned | src/components/registration/tutors.js:62-65 | the accounts still offered are, in order, exactly those whose id is not among the taken ids; each kept entry appears as often as in the input |
| Users.AssignedIds | src/components/registration/tutors.js:63 | one id per assigned record, in order; an id is taken iff some record points at it |
| Users.Available | src/components/registration/tutors.js:62-65 | the accounts offered are, in order, exactly the fetched ones that no record points at; each kept entry appears as often as in the input |
| Users.FreeSnoc | src/components/registration/tutors.js:62-65 | one more record keeps an account id free iff it was free and the new record does not point at it |
| Users.UsersScreen.constructor | src/components/users/UserCRUD.js:24-40 | the screen starts empty with a blank form whose status is 'active', the modal closed and empty filters |
| Users.UsersScreen.Fetch | src/components/users/UserCRUD.js:48-56 | the list becomes the reply's body whatever its status; a failed fetch keeps it |
| Users.UsersScreen.OpenForAdd | src/components/users/UserCRUD.js:151 | the add button opens the modal and changes nothing else |
| Users.UsersScreen.Edit | src/components/users/UserCRUD.js:84-100 | the account is selected; if its form can be built the form is filled, edit mode is on and the modal opens, otherwise only the selection changed |
| Users.UsersScreen.ResetForm | src/components/users/UserCRUD.js:118-133 | every input becomes '' except the status 'active', edit mode is off and nothing is selected |
| Users.UsersScreen.CloseModal | src/components/users/UserCRUD.js:225 | the modal closes and the form is reset |
| Users.UsersScreen.FilterChange | src/components/users/UserCRUD.js:135-137 | only the named filter key takes the new value |
| Users.UsersScreen.Save | src/components/users/UserCRUD.js:58-82 | PUT to `/users/<id>` in edit mode, else POST; a non-ok or failed response changes no state; an ok one refetches, closes and resets |
| Users.UsersScreen.Delete | src/components/users/UserCRUD.js:102-116 | DELETE to `/users/<id>`; the list changes only through the refetch after an ok response |
| Evaluations.EditForm | src/components/Evaluations/Evaluations.js:83-98 | saving the edit form unchanged over the row gives the row back: the form holds every column the screen edits, unaltered |
| Evaluations.Shows | src/components/Evaluations/Evaluations.js:141-145 | the callback throws iff the student id is missing, or it matches and the subject id is missing; it accepts iff the texts of both ids contain their filters |
| Evaluations.FilteredEvaluations | src/components/Evaluations/Evaluations.js:141-145 | the filter throws iff the callback throws on some row; otherwise it keeps, in order, exactly the rows the callback accepts; each kept entry appears as often as in the input |
| Evaluations.FilteredEvaluationsThrows | src/components/Evaluations/Evaluations.js:141-145 | the filter throws iff some student id is missing, or some matching student id comes with a missing subject id |
| Evaluations.EvaluationShownIff | src/components/Evaluations/Evaluations.js:141-145 | an evaluation is shown iff the texts of its student id and subject id contain their filters, case-sensitively; order is preserved |
| Evaluations.UnfilteredShowsAll | src/components/Evaluations/Evaluations.js:141-145 | with empty filters the whole list is shown in its order, when no id is missing |
| Evaluations.EvaluationsScreen.constructor | src/components/Evaluations/Evaluations.js:25-40 | the screen starts empty with a blank form, the modal closed and empty filters |
| Evaluations.EvaluationsScreen.Fetch | src/components/Evaluations/Evaluations.js:48-56 | the list becomes the reply's body whatever its status; a failed fetch keeps it |
| Evaluations.EvaluationsScreen.OpenForAdd | src/components/Evaluations/Evaluations.js:151 | the add button opens the modal and changes nothing else |
| Evaluations.EvaluationsScreen.Edit | src/components/Evaluations/Evaluations.js:83-98 | all nine fields are copied verbatim (no date truncation), the evaluation is selected, edit mode is on and the modal opens |
| Evaluations.EvaluationsScreen.ResetForm | src/components/Evaluations/Evaluations.js:120-134 | the nine inputs become '', edit mode is off and nothing is selected |
| Evaluations.EvaluationsScreen.CloseModal | src/components/Evaluations/Evaluations.js:136-139 | the modal closes and the form is left in its reset state |
| Evaluations.EvaluationsScreen.FilterChange | src/components/Evaluations/Evaluations.js:116-118 | only the named filter key takes the new value |
| Evaluations.EvaluationsScreen.Save | src/components/Evaluations/Evaluations.js:58-81 | PUT to the edited evaluation or POST; a non-ok response throws before the modal closes, so nothing changes; an ok one refetches, closes and resets |
| Evaluations.EvaluationsScreen.Delete | src/components/Evaluations/Evaluations.js:100-114 | DELETE to the evaluation's URL; only an ok response refetches |
| ClassSchedules.Normalise | src/components/classSchedules/ClassSchedules.js:53-57 | a falsy weekday or classroom becomes '', a truthy one is kept, and every other field is unchanged |
| ClassSchedules.NormaliseAll | src/components/classSchedules/ClassSchedules.js:53-57 | the fetched rows are normalised one by one: same length, same order, every row in normal form |
| ClassSchedules.NormaliseIdempotent | src/components/classSchedules/ClassSchedules.js:53-57 | normalising yields normal form, leaves a normal row alone, and twice is once |
| ClassSchedules.EditForm | src/components/classSchedules/ClassSchedules.js:89-102 | saving the edit form unchanged over the row gives the row back: the form holds every column the screen edits, unaltered |
| ClassSchedules.Shows | src/components/classSchedules/ClassSchedules.js:143-147 | the callback throws iff the weekday is a truthy non-string, or it matches and the classroom is a truthy non-string; it accepts iff both are non-empty strings containing their filters ignoring case |
| ClassSchedules.FilteredSchedules | src/components/classSchedules/ClassSchedules.js:143-147 | the filter throws iff the callback throws on some row; otherwise it keeps, in order, exactly the rows the callback accepts; each kept entry appears as often as in the input |
| ClassSchedules.ScheduleShownIff | src/components/classSchedules/ClassSchedules.js:143-147 | a schedule is shown iff its weekday and classroom are non-empty strings each containing its filter ignoring case; order is preserved |
| ClassSchedules.FilteredSchedulesThrows | src/components/classSchedules/ClassSchedules.js:143-147 | the filter throws iff some weekday is a truthy non-string, or some matching weekday comes with a truthy non-string classroom |
| ClassSchedules.NormalisedBlankNeverShown | src/components/classSchedules/ClassSchedules.js:55-56 | a row whose weekday or classroom was normalised to '' is never shown, whatever the filter |
| ClassSchedules.NormaliseKeepsVisibility | src/components/classSchedules/ClassSchedules.js:53-57 | filtering the normalised list throws iff filtering the raw list does, and shows the normalised images of the rows the raw filter shows |
| ClassSchedules.ClassSchedulesScreen.constructor | src/components/classSchedules/ClassSchedules.js:25-38 | the screen starts empty with a blank form, the modal closed and empty filters |
| ClassSchedules.ClassSchedulesScreen.Fetch | src/components/classSchedules/ClassSchedules.js:46-62 | an ok reply replaces the list by its normalised body; a non-ok or failed fetch keeps the list |
| ClassSchedules.ClassSchedulesScreen.OpenForAdd | src/components/classSchedules/ClassSchedules.js:153 | the add button opens the modal and changes nothing else |
| ClassSchedules.ClassSchedulesScreen.Edit | src/components/classSchedules/ClassSchedules.js:89-102 | the seven fields are copied, the schedule is selected, edit mode is on and the modal opens |
| ClassSchedules.ClassSchedulesScreen.ResetForm | src/components/classSchedules/ClassSchedules.js:124-136 | the seven inputs become '', edit mode is off and nothing is selected |
| ClassSchedules.ClassSchedulesScreen.CloseModal | src/components/classSchedules/ClassSchedules.js:138-141 | the modal closes and the form is reset |
| ClassSchedules.ClassSchedulesScreen.FilterChange | src/components/classSchedules/ClassSchedules.js:120-122 | only the named filter key takes the new value |
| ClassSchedules.ClassSchedulesScreen.Save | src/components/classSchedules/ClassSchedules.js:64-87 | PUT to the edited schedule or POST; only an ok response refetches, closes and resets; otherwise nothing changes |
| ClassSchedules.ClassSchedulesScreen.Delete | src/components/classSchedules/ClassSchedules.js:104-118 | DELETE to the schedule's URL; only an ok response refetches |
| Attendance.EditForm | src/components/Attendance/Attendance.js:79-90 | saving the edit form unchanged over the row gives the row back: the form holds every column the screen edits, unaltered |
| Attendance.Shows | src/components/Attendance/Attendance.js:129-133 | the callback throws iff the student id is missing, or it matches and the date is not a string; it accepts iff the id's text contains the id filter and the date string contains the date filter |
| Attendance.FilteredAttendances | src/components/Attendance/Attendance.js:129-133 | the filter throws iff the callback throws on some row; otherwise it keeps, in order, exactly the rows the callback accepts; each kept entry appears as often as in the input |
| Attendance.FilteredAttendancesThrows | src/components/Attendance/Attendance.js:129-133 | the filter throws iff some student id is missing, or some matching student id comes with a date that is not a string |
| Attendance.AttendanceShownIff | src/components/Attendance/Attendance.js:129-133 | a record is shown iff its student id's text contains the id filter and its date is a string containing the date filter; order is preserved |
| Attendance.UnfilteredShowsAll | src/components/Attendance/Attendance.js:129-133 | with empty filters every record is shown in order, when each has a student id and a string date |
| Attendance.AttendanceScreen.constructor | src/components/Attendance/Attendance.js:25-36 | the screen starts empty with a blank form, the modal closed and empty filters |
| Attendance.AttendanceScreen.Fetch | src/components/Attendance/Attendance.js:44-52 | the list becomes the reply's body whatever its status; a failed fetch keeps it |
| Attendance.AttendanceScreen.OpenForAdd | src/components/Attendance/Attendance.js:139 | the add button opens the modal and changes nothing else |
| Attendance.AttendanceScreen.Edit | src/components/Attendance/Attendance.js:79-90 | the five fields are copied, the record is selected, edit mode is on and the modal opens |
| Attendance.AttendanceScreen.ResetForm | src/components/Attendance/Attendance.js:112-122 | the five inputs become '', edit mode is off and nothing is selected |
| Attendance.AttendanceScreen.CloseModal | src/components/Attendance/Attendance.js:124-127 | the modal closes and the form is reset |
| Attendance.AttendanceScreen.FilterChange | src/components/Attendance/Attendance.js:108-110 | only the named filter key takes the new value |
| Attendance.AttendanceScreen.Save | src/components/Attendance/Attendance.js:54-77 | PUT to the edited record or POST; a non-ok save leaves the modal and form as they were; an ok one refetches, closes and resets |
| Attendance.AttendanceScreen.Delete | src/components/Attendance/Attendance.js:92-106 | DELETE to the record's URL; only an ok response refetches |
| GradeReports.EditForm | src/components/Newsletters/gradeReports.js:92-104 | saving the edit form unchanged over the row gives the row back: the form holds every column the screen edits, unaltered |
| GradeReports.Shows | src/components/Newsletters/gradeReports.js:137-141 | the callback throws iff the title is not a string; it accepts iff the title contains the title filter ignoring case and the status filter is empty or equals the status |
| GradeReports.FilteredNewsletters | src/components/Newsletters/gradeReports.js:137-141 | the filter throws iff the callback throws on some row; otherwise it keeps, in order, exactly the rows the callback accepts; each kept entry appears as often as in the input |
| GradeReports.FilteredNewslettersThrows | src/components/Newsletters/gradeReports.js:137-141 | the filter throws iff some title is not a string, whatever the filters say |
| GradeReports.NewsletterShownIff | src/components/Newsletters/gradeReports.js:137-141 | a newsletter is shown iff its title contains the title filter ignoring case and the status filter is empty or equals its status exactly |
| GradeReports.UnfilteredShowsAll | src/components/Newsletters/gradeReports.js:137-141 | with no title filter and all statuses every newsletter is shown in order, when every title is a string |
| GradeReports.GradeReportsScreen.constructor | src/components/Newsletters/gradeReports.js:25-38 | the screen starts with no newsletters and no users, a blank form, the modal closed and empty filters |
| GradeReports.GradeReportsScreen.FetchNewsletters | src/components/Newsletters/gradeReports.js:48-56 | the newsletters become the reply's body whatever its status; nothing else changes |
| GradeReports.GradeReportsScreen.FetchUsers | src/components/Newsletters/gradeReports.js:58-66 | the users become the reply's body whatever its status; nothing else changes |
| GradeReports.GradeReportsScreen.Offered | src/components/Newsletters/gradeReports.js:68-71 | the user select offers, in order, exactly the fetched users no newsletter is assigned to, so an edited newsletter's own user is never among them; each kept entry appears as often as in the input |
| GradeReports.GradeReportsScreen.OpenForAdd | src/components/Newsletters/gradeReports.js:147 | the add button opens the modal and changes nothing else |
| GradeReports.GradeReportsScreen.Edit | src/components/Newsletters/gradeReports.js:92-104 | the six fields are copied, the newsletter is selected, edit mode is on and the modal opens |
| GradeReports.GradeReportsScreen.ResetForm | src/components/Newsletters/gradeReports.js:119-130 | the six inputs become '', edit mode is off and nothing is selected |
| GradeReports.GradeReportsScreen.CloseModal | src/components/Newsletters/gradeReports.js:132-135 | the modal closes and the form is reset |
| GradeReports.GradeReportsScreen.FilterChange | src/components/Newsletters/gradeReports.js:115-117 | only the named filter key takes the new value |
| GradeReports.GradeReportsScreen.Save | src/components/Newsletters/gradeReports.js:73-90 | PUT to the edited newsletter or POST; any HTTP response, rejected or not, refetches, closes and resets; only a network failure changes nothing |
| GradeReports.GradeReportsScreen.Delete | src/components/Newsletters/gradeReports.js:106-113 | DELETE to the newsletter's URL; any HTTP response refetches |
| SchoolYear.DatePart | src/components/schoolYear/SchoolYear.js:62-66 | a date's part before 'T' exists iff the date is valid, and it is the prefix of its ISO form up to the first 'T' (the whole form when there is none) |
| SchoolYear.FormattedData | src/components/schoolYear/SchoolYear.js:61-67 | the sent data exists iff all four dates are valid; it keeps grade, days and status and reduces each date to its date part |
| SchoolYear.FormattedDatesHaveNoTime | src/components/schoolYear/SchoolYear.js:61-67 | every date the save sends is a string with no time part |
| SchoolYear.EditForm | src/components/schoolYear/SchoolYear.js:87-100 | saving the edit form unchanged over the row gives the row back: the form holds every column the screen edits, unaltered |
| SchoolYear.DatesComplete | src/components/schoolYear/SchoolYear.js:56-60 | the save goes ahead iff none of the four date inputs is `undefined`, `null`, `''` or `0` |
| SchoolYear.Shows | src/components/schoolYear/SchoolYear.js:134-138 | the callback throws iff the grade is not a string, or it matches and the status is not a string; it accepts iff grade and status are strings containing their filters ignoring case |
| SchoolYear.FilteredSchoolYears | src/components/schoolYear/SchoolYear.js:134-138 | the filter throws iff the callback throws on some row; otherwise it keeps, in order, exactly the rows the callback accepts; each kept entry appears as often as in the input |
| SchoolYear.FilteredSchoolYearsThrows | src/components/schoolYear/SchoolYear.js:134-138 | the filter throws iff some grade is not a string, or some matching grade comes with a status that is not a string |
| SchoolYear.SchoolYearShownIff | src/components/schoolYear/SchoolYear.js:134-138 | a school year is shown iff its grade and status are strings containing their filters ignoring case; order is preserved |
| SchoolYear.UnfilteredShowsAll | src/components/schoolYear/SchoolYear.js:134-138 | with empty filters every school year is shown in order, when every grade and status is a string |
| SchoolYear.SchoolYearScreen.constructor | src/components/schoolYear/SchoolYear.js:24-37 | the screen starts empty with a blank form, the modal closed and empty filters |
| SchoolYear.SchoolYearScreen.Fetch | src/components/schoolYear/SchoolYear.js:45-53 | the list becomes the reply's body whatever its status; a failed fetch keeps it |
| SchoolYear.SchoolYearScreen.OpenForAdd | src/components/schoolYear/SchoolYear.js:144 | the add button opens the modal and changes nothing else |
| SchoolYear.SchoolYearScreen.Edit | src/components/schoolYear/SchoolYear.js:87-100 | the seven fields are copied, the school year is selected, edit mode is on and the modal opens |
| SchoolYear.SchoolYearScreen.ResetForm | src/components/schoolYear/SchoolYear.js:115-127 | the seven inputs become '', edit mode is off and nothing is selected |
| SchoolYear.SchoolYearScreen.CloseModal | src/components/schoolYear/SchoolYear.js:129-132 | the modal closes and the form is reset |
| SchoolYear.SchoolYearScreen.FilterChange | src/components/schoolYear/SchoolYear.js:111-113 | only the named filter key takes the new value |
| SchoolYear.SchoolYearScreen.Save | src/components/schoolYear/SchoolYear.js:55-85 | a request is sent iff the four dates are filled in and valid; then it is PUT or POST and carries the formatted data; any HTTP response refetches, closes and resets; otherwise nothing changes |
| SchoolYear.SchoolYearScreen.Delete | src/components/schoolYear/SchoolYear.js:102-109 | DELETE to the school year's URL; any HTTP response refetches |
| SubjectsTaken.EditForm | src/components/subjectsTaken/SubjectsTaken.js:79-89 | saving the edit form unchanged over the row gives the row back: the form holds every column the screen edits, unaltered |
| SubjectsTaken.Shows | src/components/subjectsTaken/SubjectsTaken.js:127-131 | the callback throws iff the student id is missing, or it matches and the school year id is missing; it accepts iff the texts of both ids contain their filters |
| SubjectsTaken.FilteredSubjectsTaken | src/components/subjectsTaken/SubjectsTaken.js:127-131 | the filter throws iff the callback throws on some row; otherwise it keeps, in order, exactly the rows the callback accepts; each kept entry appears as often as in the input |
| SubjectsTaken.FilteredSubjectsTakenThrows | src/components/subjectsTaken/SubjectsTaken.js:127-131 | the filter throws iff some student id is missing, or some matching student id comes with a missing school year id |
| SubjectsTaken.SubjectTakenShownIff | src/components/subjectsTaken/SubjectsTaken.js:127-131 | a row is shown iff the texts of its student id and school year id contain their filters; order is preserved |
| SubjectsTaken.NarrowingHidesMore | src/components/subjectsTaken/SubjectsTaken.js:127-131 | typing more characters into either filter never shows a row the shorter filter hid |
| SubjectsTaken.SubjectsTakenScreen.constructor | src/components/subjectsTaken/SubjectsTaken.js:23-33 | the screen starts empty with a blank form, the modal closed and empty filters |
| SubjectsTaken.SubjectsTakenScreen.Fetch | src/components/subjectsTaken/SubjectsTaken.js:41-52 | an ok reply replaces the list; a non-ok or failed fetch keeps it |
| SubjectsTaken.SubjectsTakenScreen.OpenForAdd | src/components/subjectsTaken/SubjectsTaken.js:137 | the add button opens the modal and changes nothing else |
| SubjectsTaken.SubjectsTakenScreen.Edit | src/components/subjectsTaken/SubjectsTaken.js:79-89 | the four fields are copied, the row is selected, edit mode is on and the modal opens |
| SubjectsTaken.SubjectsTakenScreen.ResetForm | src/components/subjectsTaken/SubjectsTaken.js:111-120 | the four inputs become '', edit mode is off and nothing is selected |
| SubjectsTaken.SubjectsTakenScreen.CloseModal | src/components/subjectsTaken/SubjectsTaken.js:122-125 | the modal closes and the form is reset |
| SubjectsTaken.SubjectsTakenScreen.FilterChange | src/components/subjectsTaken/SubjectsTaken.js:107-109 | only the named filter key takes the new value |
| SubjectsTaken.SubjectsTakenScreen.Save | src/components/subjectsTaken/SubjectsTaken.js:54-77 | PUT to the edited row or POST; a non-ok save leaves everything as it was; an ok one refetches, closes and resets |
| SubjectsTaken.SubjectsTakenScreen.Delete | src/components/subjectsTaken/SubjectsTaken.js:91-105 | DELETE to the row's URL; only an ok response refetches, and the refetch itself checks its status |
| Subjects.EditForm | src/components/subjects/Subjects.js:71-81 | saving the edit form unchanged over the row gives the row back: the form holds every column the screen edits, unaltered |
| Subjects.Shows | src/components/subjects/Subjects.js:112-116 | the callback throws iff the name is not a string, or it matches and the school year is missing; it accepts iff the name contains the name filter ignoring case and the year's text contains the year filter |
| Subjects.FilteredSubjects | src/components/subjects/Subjects.js:112-116 | the filter throws iff the callback throws on some row; otherwise it keeps, in order, exactly the rows the callback accepts; each kept entry appears as often as in the input |
| Subjects.FilteredSubjectsThrows | src/components/subjects/Subjects.js:112-116 | the filter throws iff some name is not a string, or some matching name comes with a missing school year |
| Subjects.SubjectShownIff | src/components/subjects/Subjects.js:112-116 | a subject is shown iff its name contains the name filter ignoring case and the text of its school year contains the year filter; order is preserved |
| Subjects.NameFilterIgnoresCase | src/components/subjects/Subjects.js:113-114 | a name filter typed in upper or lower case shows the same subjects |
| Subjects.SubjectsScreen.constructor | src/components/subjects/Subjects.js:24-34 | the screen starts empty with a blank form, the modal closed and empty filters |
| Subjects.SubjectsScreen.Fetch | src/components/subjects/Subjects.js:42-50 | the list becomes the reply's body whatever its status; a failed fetch keeps it |
| Subjects.SubjectsScreen.OpenForAdd | src/components/subjects/Subjects.js:122 | the add button opens the modal and changes nothing else |
| Subjects.SubjectsScreen.Edit | src/components/subjects/Subjects.js:71-81 | the four fields are copied, the subject is selected, edit mode is on and the modal opens |
| Subjects.SubjectsScreen.ResetForm | src/components/subjects/Subjects.js:96-105 | the four inputs become '', edit mode is off and nothing is selected |
| Subjects.SubjectsScreen.CloseModal | src/components/subjects/Subjects.js:107-110 | the modal closes and the form is reset |
| Subjects.SubjectsScreen.FilterChange | src/components/subjects/Subjects.js:92-94 | only the named filter key takes the new value |
| Subjects.SubjectsScreen.Save | src/components/subjects/Subjects.js:52-69 | PUT to the edited subject or POST; any HTTP response refetches, closes and resets, whatever its status |
| Subjects.SubjectsScreen.Delete | src/components/subjects/Subjects.js:83-90 | DELETE to the subject's URL; any HTTP response refetches |
| Sections.Shows | src/components/Sections/sections.js:105-109 | the callback throws iff the schedule id is missing, or it matches and the section number is missing; it accepts iff the texts of both contain their filters |
| Sections.FilteredSections | src/components/Sections/sections.js:105-109 | the filter throws iff the callback throws on some row; otherwise it keeps, in order, exactly the rows the callback accepts; each kept entry appears as often as in the input |
| Sections.FilteredSectionsThrows | src/components/Sections/sections.js:105-109 | the filter throws iff some schedule id is missing, or some matching schedule id comes with a missing section number |
| Sections.SectionShownIff | src/components/Sections/sections.js:105-109 | a section is shown iff the texts of its schedule id and number contain their filters; order is preserved |
| Sections.UnfilteredShowsAll | src/components/Sections/sections.js:105-109 | with empty filters every section is shown in order, when no id or number is missing |
| Sections.NumberMatchedByDigits | src/components/Sections/sections.js:107-108 | a numeric section number is matched through its decimal spelling |
| Sections.SectionsScreen.constructor | src/components/Sections/sections.js:23-31 | the screen starts empty with a blank form, the modal closed and empty filters |
| Sections.SectionsScreen.Fetch | src/components/Sections/sections.js:39-47 | the list becomes the reply's body whatever its status; a failed fetch keeps it |
| Sections.SectionsScreen.OpenForAdd | src/components/Sections/sections.js:115 | the add button opens the modal and changes nothing else |
| Sections.SectionsScreen.Edit | src/components/Sections/sections.js:68-76 | both fields are copied, the section is selected, edit mode is on and the modal opens |
| Sections.SectionsScreen.ResetForm | src/components/Sections/sections.js:91-98 | both inputs become '', edit mode is off and nothing is selected |
| Sections.SectionsScreen.CloseModal | src/components/Sections/sections.js:100-103 | the modal closes and the form is reset |
| Sections.SectionsScreen.FilterChange | src/components/Sections/sections.js:87-89 | only the named filter key takes the new value |
| Sections.SectionsScreen.Save | src/components/Sections/sections.js:49-66 | PUT to the edited section or POST; any HTTP response refetches, closes and resets, whatever its status |
| Sections.SectionsScreen.Delete | src/components/Sections/sections.js:78-85 | DELETE to the section's URL; any HTTP response refetches |
| Tutors.NewTutorTakesItsUser | src/components/registration/tutors.js:62-65 | adding a tutor withdraws exactly the accounts with its user id from the options |
| Tutors.Shows | src/components/registration/tutors.js:121-123 | the callback never throws (the truthiness test guards `toString`) and accepts iff the user id is truthy and its text contains the filter |
| Tutors.FilteredTutors | src/components/registration/tutors.js:121-123 | the tutors filter keeps, in order, exactly the tutors the callback accepts; each kept entry appears as often as in the input |
| Tutors.TutorShownIff | src/components/registration/tutors.js:121-123 | a tutor is shown iff its user id is truthy and its text contains the filter; with an empty filter, exactly the tutors with a truthy user id |
| Tutors.TutorsScreen.constructor | src/components/registration/tutors.js:24-32 | the screen starts with no tutors and no accounts, a blank form, the modal closed and an empty filter |
| Tutors.TutorsScreen.FetchTutors | src/components/registration/tutors.js:42-50 | the tutors become the reply's body whatever its status; nothing else changes |
| Tutors.TutorsScreen.FetchUsers | src/components/registration/tutors.js:52-60 | the accounts become the reply's body whatever its status; nothing else changes |
| Tutors.TutorsScreen.Offered | src/components/registration/tutors.js:62-65 | the account select offers, in order, exactly the fetched accounts no tutor has, so an edited tutor's own account is never among them; each kept entry appears as often as in the input |
| Tutors.TutorsScreen.OpenForAdd | src/components/registration/tutors.js:129 | the add button opens the modal and changes nothing else |
| Tutors.TutorsScreen.Edit | src/components/registration/tutors.js:86-93 | the user id is copied, the tutor is selected, edit mode is on and the modal opens |
| Tutors.TutorsScreen.ResetForm | src/components/registration/tutors.js:108-114 | the user id input becomes '', edit mode is off and nothing is selected |
| Tutors.TutorsScreen.CloseModal | src/components/registration/tutors.js:116-119 | the modal closes and the form is reset |
| Tutors.TutorsScreen.FilterChange | src/components/registration/tutors.js:104-106 | the one filter key takes the new value |
| Tutors.TutorsScreen.Save | src/components/registration/tutors.js:67-84 | PUT to the edited tutor or POST; any HTTP response refetches, closes and resets, whatever its status |
| Tutors.TutorsScreen.Delete | src/components/registration/tutors.js:95-102 | DELETE to the tutor's URL; any HTTP response refetches |
| Dashboard.DateKeys | src/views/dashboard/Dashboard.js:37-38 | taking each student's date part throws iff some `created_at` is not a string; otherwise there is one key per student: the prefix of its `created_at` before the first 'T', or the whole string when there is none |
| Dashboard.Dedup | src/views/dashboard/Dashboard.js:43 | the chart's days are exactly the dates seen, each once |
| Dashboard.DedupSnoc | src/views/dashboard/Dashboard.js:37-41 | a new date joins the days at the end, and a repeated one leaves them alone |
| Dashboard.SumOverUnlisted | src/views/dashboard/Dashboard.js:37-41 | changing the count of a day that is not listed leaves the total alone |
| Dashboard.SumOverListed | src/views/dashboard/Dashboard.js:37-41 | changing the count of a listed day moves the total by the difference |
| Dashboard.CoverStep | src/views/dashboard/Dashboard.js:39 | storing a date's count keeps the counted days equal to the dates seen |
| Dashboard.ExactStep | src/views/dashboard/Dashboard.js:39 | `acc[date] = (acc[date] \|\| 0) + 1` keeps every count equal to the number of times its date was seen |
| Dashboard.TallyRepeat | src/views/dashboard/Dashboard.js:37-41 | a date seen before adds one to its count and keeps the days |
| Dashboard.TallyFirst | src/views/dashboard/Dashboard.js:37-41 | a new date becomes the last day, counted once |
| Dashboard.TallyByDate | src/views/dashboard/Dashboard.js:37-41 | the reduce counts every date exactly as often as it occurs, every count is at least 1, the days are the distinct dates in order of first appearance, and the counts sum to the number of students |
| Dashboard.FormatChart | src/views/dashboard/Dashboard.js:43-46 | one point per day, in order, whose y is that day's count; the y values sum to the counts' total |
| Dashboard.ChartDaysDistinct | src/views/dashboard/Dashboard.js:43-46 | no day gets two points of the chart |
| Dashboard.DashboardScreen.constructor | src/views/dashboard/Dashboard.js:20-21 | the dashboard starts with no users and an empty chart |
| Dashboard.DashboardScreen.FetchDashboardData | src/views/dashboard/Dashboard.js:27-52 | a failed fetch changes nothing; otherwise the total is the number of users; a non-string `created_at` then keeps the chart; else the chart has one point per distinct day with its count (at least 1), summing to the number of students |
| Profile.Complete | src/components/profile/profile.js:72-75 | the submit goes ahead iff none of the seven required inputs is `undefined`, `null`, `''` or `0` |
| Profile.PasswordNotRequired | src/components/profile/profile.js:72-75 | the submit guard never looks at the password |
| Profile.UpdatedUser | src/components/profile/profile.js:77-88 | the updated account carries the signed-in user's id, the picture and every form field under its own key |
| Profile.ReplaceById | src/components/profile/profile.js:104-106 | the list keeps its length; entries with the id become the updated account and the others are unchanged |
| Profile.RemoveById | src/components/profile/profile.js:125 | exactly the entries with the id are removed and the rest keep their order; each kept entry appears as often as in the input |
| Profile.ReplaceByIdContents | src/components/profile/profile.js:104-106 | after a replace the only entry left with the id is the updated one, it is present when the id was, and every other entry stays |
| Profile.RemoveAfterReplace | src/components/profile/profile.js:104-125 | removing an id after replacing it gives the same list as removing it straight away |
| Profile.RemoveByIdCons | src/components/profile/profile.js:125 | the remove filter drops the head exactly when it has the id |
| Profile.ProfileScreen.constructor | src/components/profile/profile.js:20-33 | the users URL is the configured API URL followed by `/users`; the form is blank, the picture is the placeholder and the modal is closed |
| Profile.ProfileScreen.Load | src/components/profile/profile.js:35-56 | with a signed-in user, GET its URL; an ok reply fills the seven inputs and sets the picture, a falsy one becoming the placeholder; any other outcome changes nothing |
| Profile.ProfileScreen.Submit | src/components/profile/profile.js:69-111 | a PUT is sent iff the seven required inputs are filled and a user is signed in; it carries the updated account; an ok reply on a linked screen replaces the account in the list and closes the modal; otherwise nothing changes |
| Profile.ProfileScreen.Delete | src/components/profile/profile.js:113-130 | a DELETE is sent iff the confirmation is accepted and a user is signed in; an ok reply on a linked screen removes the account from the list; otherwise nothing changes |
| Profile.ProfileScreen.CloseModal | src/components/profile/profile.js:132-134 | the modal closes and nothing else changes |

## Left out

- Networking: `fetch`, `response.json()` and the HTTP exchange are not modelled. A handler receives their outcome as a parameter: a network failure or a status, and the refetch's reply as `NoReply` or a status with a parsed body.
- Request bodies: the `JSON.stringify` payload is not modelled. The exceptions are the school year save and the profile submit, which return the object they send.
- Response bodies that are not arrays are not modelled: a fetched body is always a list of records.
- Asynchronous ordering: a refetch that is not awaited is applied in the same step as the handler that starts it, before the modal closes.
- Rendering: JSX, CoreUI components, the chart widget and the per-input `onChange` setters of the modal forms are not modelled; the form is a value the handlers read and write.
- `alert` and `window.confirm` dialogs: the alert is modelled as "nothing is sent", and the confirmation is a boolean parameter.
- The profile picture upload through `FileReader` (src/components/profile/profile.js:58-67) is not modelled; the picture is a value.
- The profile screen's `editMode` state (src/components/profile/profile.js:31) is not modelled: no handler of the screen reads or writes it.
- `console.error` logging in every `catch` is not modelled.
- Authentication, tokens, routing and menus are not part of this model. The application configuration is not part of this model either: its API URL is a constructor parameter of the profile screen.
- Number formatting: field values are integers, strings, `null` or `undefined`. Non-integer numbers, booleans, objects and arrays as field values are not modelled.
- Unicode case mapping: `toLowerCase` is modelled on ASCII letters only.
- `Object.keys` order: the dashboard chart lists days in insertion order. JavaScript lists integer-like keys first in numeric order; a `created_at` whose date part is a plain number would be ordered differently. Inherited keys such as `constructor` and `__proto__` as dates are not modelled either.
- SchoolYear.FormattedData: `new Date(v).toISOString()` is not modelled. It depends on the host's date parsing and time zone, so it is the parameter `iso`, where `None` stands for the RangeError of an invalid date.
- Dashboard.DashboardScreen.FetchDashboardData: which of the two fetches failed is not distinguished; either failure leaves the state unchanged, since both fetches and both `json()` calls come before the first state update.
