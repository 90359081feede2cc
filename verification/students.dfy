/** The students screen: a list of students, a two-field filter and a modal
    form to add or edit a student. */
module Students {
  import opened Js
  import opened Crud

  const StudentsUrl := "http://localhost:4000/api/students"

  /** A row of the students list. */
  datatype Student = Student(
    idStudent: Value, idTutor: Value, idSection: Value, idSchoolYear: Value,
    firstNameStudent: Value, lastNameStudent: Value, dateOfBirthStudent: Value,
    healthRecord: Value, gender: Value, street: Value, city: Value, zipCode: Value)

  /** The eleven inputs of the student modal. */
  datatype StudentForm = StudentForm(
    idTutor: Value, idSection: Value, idSchoolYear: Value,
    firstNameStudent: Value, lastNameStudent: Value, dateOfBirthStudent: Value,
    healthRecord: Value, gender: Value, street: Value, city: Value, zipCode: Value)

  const BlankForm := StudentForm(
    Str(""), Str(""), Str(""), Str(""), Str(""), Str(""),
    Str(""), Str(""), Str(""), Str(""), Str(""))

  datatype StudentFilter = StudentFilter(firstNameStudent: string, idSection: string)

  /** The `name` of the filter input that changed. */
  datatype FilterKey = FirstNameStudentKey | IdSectionKey

  /** The form handleEditStudent fills in from a record. It throws when the date
      of birth is truthy but not a string (`split` is a string method). */
  function EditForm(st: Student): (r: Eval<StudentForm>)
    ensures r.Throws? <==> Truthy(st.dateOfBirthStudent) && !st.dateOfBirthStudent.Str?
    ensures r.Returns? ==>
      var f := r.value;
      && f.idTutor == st.idTutor && f.idSection == st.idSection && f.idSchoolYear == st.idSchoolYear
      && f.firstNameStudent == st.firstNameStudent && f.lastNameStudent == st.lastNameStudent
      && f.healthRecord == st.healthRecord && f.gender == st.gender
      && f.street == st.street && f.city == st.city && f.zipCode == st.zipCode
      && f.dateOfBirthStudent.Str? && 'T' !in f.dateOfBirthStudent.s
      && (Truthy(st.dateOfBirthStudent) ==> IsPrefix(f.dateOfBirthStudent.s, st.dateOfBirthStudent.s))
      && (Truthy(st.dateOfBirthStudent) && |f.dateOfBirthStudent.s| < |st.dateOfBirthStudent.s| ==>
            st.dateOfBirthStudent.s[|f.dateOfBirthStudent.s|] == 'T')
      && (!Truthy(st.dateOfBirthStudent) ==> f.dateOfBirthStudent == Str(""))
  {
    var dob :- (if Truthy(st.dateOfBirthStudent) then SplitHead(st.dateOfBirthStudent, 'T') else Returns(""));
    Returns(StudentForm(
      st.idTutor, st.idSection, st.idSchoolYear, st.firstNameStudent, st.lastNameStudent,
      Str(dob), st.healthRecord, st.gender, st.street, st.city, st.zipCode))
  }

  /** The callback of `filteredStudents`: a non-empty first name that contains
      the name filter ignoring case, and a truthy section whose text contains the
      section filter. */
  function Shows(st: Student, f: StudentFilter): (r: Eval<bool>)
    ensures r.Throws? <==>
      Truthy(st.firstNameStudent) && !st.firstNameStudent.Str?
    ensures r == Returns(true) <==>
      st.firstNameStudent.Str? && st.firstNameStudent.s != ""
        && Includes(Lower(st.firstNameStudent.s), Lower(f.firstNameStudent))
        && Truthy(st.idSection) && Includes(Interpolate(st.idSection), f.idSection)
  {
    var byName :- MatchesIgnoringCase(st.firstNameStudent, f.firstNameStudent);
    if !byName then Returns(false)
    else if !Truthy(st.idSection) then Returns(false)
    else
      match ToText(st.idSection)
      case Throws => Throws
      case Returns(section) => Returns(Includes(section, f.idSection))
  }

  function FilteredStudents(students: seq<Student>, f: StudentFilter): (r: Eval<seq<Student>>)
    ensures r.Returns? <==> forall i :: 0 <= i < |students| ==> Shows(students[i], f).Returns?
    ensures r.Returns? ==> Subsequence(r.value, students)
    ensures r.Returns? ==> forall st :: st in r.value <==> st in students && Shows(st, f) == Returns(true)
    ensures r.Returns? ==> forall st :: multiset(r.value)[st] == if Shows(st, f) == Returns(true) then multiset(students)[st] else 0
  {
    Keep(students, st => Shows(st, f))
  }

  /** The filter expression throws exactly when some student's first name is
      truthy but not a string. */
  lemma FilteredStudentsThrows(students: seq<Student>, f: StudentFilter)
    ensures FilteredStudents(students, f).Throws? <==>
      exists st :: st in students && Truthy(st.firstNameStudent) && !st.firstNameStudent.Str?
  {
  }

  /** A student is shown iff its first name is a non-empty string containing the
      name filter ignoring case and its section is truthy with a text containing
      the section filter; the shown rows keep their order and are unaltered. */
  lemma StudentShownIff(students: seq<Student>, f: StudentFilter, st: Student)
    requires FilteredStudents(students, f).Returns?
    ensures Subsequence(FilteredStudents(students, f).value, students)
    ensures st in FilteredStudents(students, f).value <==>
      && st in students
      && st.firstNameStudent.Str? && st.firstNameStudent.s != ""
      && Includes(Lower(st.firstNameStudent.s), Lower(f.firstNameStudent))
      && Truthy(st.idSection) && Includes(Interpolate(st.idSection), f.idSection)
  {
  }

  /** With both filters empty, a student with an empty first name or a falsy
      section id (0, '', null) is still hidden, and every other one is shown. */
  lemma UnfilteredStillHides(students: seq<Student>, st: Student)
    requires FilteredStudents(students, StudentFilter("", "")).Returns?
    requires st in students
    ensures st in FilteredStudents(students, StudentFilter("", "")).value <==>
      st.firstNameStudent != Str("") && Truthy(st.firstNameStudent) && Truthy(st.idSection)
  {
    if st.firstNameStudent.Str? {
      IncludesEmpty(Lower(st.firstNameStudent.s));
    }
    IncludesEmpty(Interpolate(st.idSection));
  }

  /** The component's state: the React state variables of the screen. */
  class StudentsScreen {
    var students: seq<Student>
    var form: StudentForm
    var showModal: bool
    var editMode: bool
    var selected: Option<Student>
    var filter: StudentFilter

    /** In edit mode a student is selected. */
    ghost predicate Valid()
      reads this
    {
      editMode ==> selected.Some?
    }

    /** The id a save in edit mode targets. */
    function EditingId(): Option<Value>
      reads this
      requires Valid()
    {
      if editMode then Some(selected.value.idStudent) else None
    }

    /** The rows the table renders. */
    function Visible(): Eval<seq<Student>>
      reads this
    {
      FilteredStudents(students, filter)
    }

    constructor ()
      ensures Valid()
      ensures students == [] && form == BlankForm && !showModal && !editMode
      ensures selected == None && filter == StudentFilter("", "")
    {
      students := [];
      form := BlankForm;
      showModal := false;
      editMode := false;
      selected := None;
      filter := StudentFilter("", "");
    }

    /** fetchStudents: the list becomes the reply's body, whatever its status. */
    method Fetch(reply: Reply<seq<Student>>)
      requires Valid()
      modifies this
      ensures Valid()
      ensures students == Refreshed(old(students), reply, IgnoresStatus)
      ensures form == old(form) && showModal == old(showModal) && editMode == old(editMode)
      ensures selected == old(selected) && filter == old(filter)
    {
      students := Refreshed(students, reply, IgnoresStatus);
    }

    /** The "Add Student" button. */
    method OpenForAdd()
      requires Valid()
      modifies this
      ensures Valid() && showModal
      ensures students == old(students) && form == old(form) && editMode == old(editMode)
      ensures selected == old(selected) && filter == old(filter)
    {
      showModal := true;
    }

    /** handleEditStudent: selects the student, then fills the form, enters edit
        mode and opens the modal; when building the form throws, only the
        selection has changed. */
    method Edit(st: Student)
      requires Valid()
      modifies this
      ensures Valid()
      ensures selected == Some(st)
      ensures EditForm(st).Returns? ==> form == EditForm(st).value && editMode && showModal
      ensures EditForm(st).Throws? ==> form == old(form) && editMode == old(editMode) && showModal == old(showModal)
      ensures students == old(students) && filter == old(filter)
    {
      selected := Some(st);
      var r := EditForm(st);
      if r.Returns? {
        form := r.value;
        editMode := true;
        showModal := true;
      }
    }

    /** resetForm: all eleven fields blank, out of edit mode, nothing selected. */
    method ResetForm()
      requires Valid()
      modifies this
      ensures Valid()
      ensures form == BlankForm && !editMode && selected == None
      ensures students == old(students) && showModal == old(showModal) && filter == old(filter)
    {
      form := BlankForm;
      editMode := false;
      selected := None;
    }

    /** The modal's close and cancel buttons: hide the modal and reset the form. */
    method CloseModal()
      requires Valid()
      modifies this
      ensures Valid()
      ensures !showModal && form == BlankForm && !editMode && selected == None
      ensures students == old(students) && filter == old(filter)
    {
      showModal := false;
      ResetForm();
    }

    /** handleFilterChange: the named filter key takes the input's value; the other keeps its own. */
    method FilterChange(key: FilterKey, value: string)
      requires Valid()
      modifies this
      ensures Valid()
      ensures key == FirstNameStudentKey ==> filter == old(filter).(firstNameStudent := value)
      ensures key == IdSectionKey ==> filter == old(filter).(idSection := value)
      ensures students == old(students) && form == old(form) && showModal == old(showModal)
      ensures editMode == old(editMode) && selected == old(selected)
    {
      match key
      case FirstNameStudentKey => filter := filter.(firstNameStudent := value);
      case IdSectionKey => filter := filter.(idSection := value);
    }

    /** handleSaveStudent: PUT or POST the form; only an ok response refetches,
        closes the modal and resets the form. */
    method Save(resp: Response, refetch: Reply<seq<Student>>) returns (req: Request)
      requires Valid()
      modifies this
      ensures Valid()
      ensures req == SaveTarget(StudentsUrl, old(EditingId()))
      ensures Proceeds(ChecksOk, resp) ==>
        && students == Refreshed(old(students), refetch, IgnoresStatus)
        && !showModal && form == BlankForm && !editMode && selected == None
        && filter == old(filter)
      ensures !Proceeds(ChecksOk, resp) ==> unchanged(this)
    {
      req := SaveTarget(StudentsUrl, EditingId());
      if Proceeds(ChecksOk, resp) {
        Fetch(refetch);
        showModal := false;
        ResetForm();
      }
    }

    /** handleDeleteStudent: DELETE the record; only an ok response refetches. */
    method Delete(id: Value, resp: Response, refetch: Reply<seq<Student>>) returns (req: Request)
      requires Valid()
      modifies this
      ensures Valid()
      ensures req == DeleteTarget(StudentsUrl, id)
      ensures students == if Proceeds(ChecksOk, resp) then Refreshed(old(students), refetch, IgnoresStatus) else old(students)
      ensures form == old(form) && showModal == old(showModal) && editMode == old(editMode)
      ensures selected == old(selected) && filter == old(filter)
    {
      req := DeleteTarget(StudentsUrl, id);
      if Proceeds(ChecksOk, resp) {
        Fetch(refetch);
      }
    }
  }
}
