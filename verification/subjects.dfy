/** The subjects screen: a list of subjects filtered by name and school year,
    and a modal form to add or edit one. None of its requests look at the
    response status. */
module Subjects {
  import opened Js
  import opened Crud

  const SubjectsUrl := "http://localhost:4000/api/subjects"

  /** A row of the subjects list. */
  datatype Subject = Subject(
    idSubject: Value, idClassSchedules: Value, idSchoolYear: Value, nameSubject: Value,
    descriptionSubject: Value, createdAt: Value, updatedAt: Value)

  /** The four inputs of the subject modal. */
  datatype SubjectForm = SubjectForm(
    idClassSchedules: Value, idSchoolYear: Value, nameSubject: Value, descriptionSubject: Value)

  const BlankForm := SubjectForm(Str(""), Str(""), Str(""), Str(""))

  datatype SubjectFilter = SubjectFilter(nameSubject: string, idSchoolYear: string)

  datatype FilterKey = NameSubjectKey | IdSchoolYearKey

  /** `row` with the columns of form `f` written over it; its id and the
      columns the form does not hold stay as they were. */
  function Updated(row: Subject, f: SubjectForm): Subject {
    row.(
      idClassSchedules := f.idClassSchedules, idSchoolYear := f.idSchoolYear,
      nameSubject := f.nameSubject, descriptionSubject := f.descriptionSubject)
  }

  function EditForm(s: Subject): (r: SubjectForm)
    ensures Updated(s, r) == s
  {
    SubjectForm(s.idClassSchedules, s.idSchoolYear, s.nameSubject, s.descriptionSubject)
  }

  /** The callback of `filteredSubjects`: the name is a string containing the
      name filter ignoring case and, when it is, the school year's text
      contains the year filter. */
  function Shows(s: Subject, f: SubjectFilter): (r: Eval<bool>)
    ensures r.Throws? <==>
      !s.nameSubject.Str?
        || (Includes(Lower(s.nameSubject.s), Lower(f.nameSubject)) && Nullish(s.idSchoolYear))
    ensures r == Returns(true) <==>
      s.nameSubject.Str? && Includes(Lower(s.nameSubject.s), Lower(f.nameSubject))
        && !Nullish(s.idSchoolYear) && Includes(Interpolate(s.idSchoolYear), f.idSchoolYear)
  {
    var name :- ToLowerCase(s.nameSubject);
    if !Includes(name, Lower(f.nameSubject)) then Returns(false)
    else
      var year :- ToText(s.idSchoolYear);
      Returns(Includes(year, f.idSchoolYear))
  }

  function FilteredSubjects(subjects: seq<Subject>, f: SubjectFilter): (r: Eval<seq<Subject>>)
    ensures r.Returns? <==> forall i :: 0 <= i < |subjects| ==> Shows(subjects[i], f).Returns?
    ensures r.Returns? ==> Subsequence(r.value, subjects)
    ensures r.Returns? ==> forall s :: s in r.value <==> s in subjects && Shows(s, f) == Returns(true)
    ensures r.Returns? ==> forall s :: multiset(r.value)[s] == if Shows(s, f) == Returns(true) then multiset(subjects)[s] else 0
  {
    Keep(subjects, s => Shows(s, f))
  }

  /** The filter throws exactly when some name is not a string, or some name
      matches and its school year is missing. */
  lemma FilteredSubjectsThrows(subjects: seq<Subject>, f: SubjectFilter)
    ensures FilteredSubjects(subjects, f).Throws? <==>
      exists s :: s in subjects &&
        (!s.nameSubject.Str? ||
         (Includes(Lower(s.nameSubject.s), Lower(f.nameSubject)) && Nullish(s.idSchoolYear)))
  {
  }

  /** A subject is shown iff its name contains the name filter ignoring case and
      the text of its school year contains the year filter. */
  lemma SubjectShownIff(subjects: seq<Subject>, f: SubjectFilter, s: Subject)
    requires FilteredSubjects(subjects, f).Returns?
    ensures Subsequence(FilteredSubjects(subjects, f).value, subjects)
    ensures s in FilteredSubjects(subjects, f).value <==>
      && s in subjects
      && s.nameSubject.Str? && Includes(Lower(s.nameSubject.s), Lower(f.nameSubject))
      && !Nullish(s.idSchoolYear) && Includes(Interpolate(s.idSchoolYear), f.idSchoolYear)
  {
  }

  /** The name filter ignores case: typing it in upper or lower case shows the
      same subjects. */
  lemma NameFilterIgnoresCase(subjects: seq<Subject>, f: SubjectFilter, g: SubjectFilter)
    requires Lower(f.nameSubject) == Lower(g.nameSubject) && f.idSchoolYear == g.idSchoolYear
    ensures FilteredSubjects(subjects, f) == FilteredSubjects(subjects, g)
  {
    KeepCongruent(subjects, s => Shows(s, f), s => Shows(s, g));
  }

  /** The component's state. */
  class SubjectsScreen {
    var subjects: seq<Subject>
    var form: SubjectForm
    var showModal: bool
    var editMode: bool
    var selected: Option<Subject>
    var filter: SubjectFilter

    /** In edit mode a subject is selected. */
    ghost predicate Valid()
      reads this
    {
      editMode ==> selected.Some?
    }

    function EditingId(): Option<Value>
      reads this
      requires Valid()
    {
      if editMode then Some(selected.value.idSubject) else None
    }

    function Visible(): Eval<seq<Subject>>
      reads this
    {
      FilteredSubjects(subjects, filter)
    }

    constructor ()
      ensures Valid()
      ensures subjects == [] && form == BlankForm && !showModal && !editMode
      ensures selected == None && filter == SubjectFilter("", "")
    {
      subjects := [];
      form := BlankForm;
      showModal := false;
      editMode := false;
      selected := None;
      filter := SubjectFilter("", "");
    }

    /** fetchSubjects: the list becomes the reply's body, whatever its status. */
    method Fetch(reply: Reply<seq<Subject>>)
      requires Valid()
      modifies this
      ensures Valid()
      ensures subjects == Refreshed(old(subjects), reply, IgnoresStatus)
      ensures form == old(form) && showModal == old(showModal) && editMode == old(editMode)
      ensures selected == old(selected) && filter == old(filter)
    {
      subjects := Refreshed(subjects, reply, IgnoresStatus);
    }

    /** The "Add Subject" button. */
    method OpenForAdd()
      requires Valid()
      modifies this
      ensures Valid() && showModal
      ensures subjects == old(subjects) && form == old(form) && editMode == old(editMode)
      ensures selected == old(selected) && filter == old(filter)
    {
      showModal := true;
    }

    /** handleEditSubject: the four fields copied as they are. */
    method Edit(s: Subject)
      requires Valid()
      modifies this
      ensures Valid()
      ensures selected == Some(s) && editMode && showModal
      ensures form.idClassSchedules == s.idClassSchedules && form.idSchoolYear == s.idSchoolYear
      ensures form.nameSubject == s.nameSubject && form.descriptionSubject == s.descriptionSubject
      ensures subjects == old(subjects) && filter == old(filter)
    {
      selected := Some(s);
      form := EditForm(s);
      editMode := true;
      showModal := true;
    }

    /** resetForm */
    method ResetForm()
      requires Valid()
      modifies this
      ensures Valid()
      ensures form == BlankForm && !editMode && selected == None
      ensures subjects == old(subjects) && showModal == old(showModal) && filter == old(filter)
    {
      form := BlankForm;
      editMode := false;
      selected := None;
    }

    /** handleCloseModal */
    method CloseModal()
      requires Valid()
      modifies this
      ensures Valid()
      ensures !showModal && form == BlankForm && !editMode && selected == None
      ensures subjects == old(subjects) && filter == old(filter)
    {
      showModal := false;
      ResetForm();
    }

    /** handleFilterChange */
    method FilterChange(key: FilterKey, value: string)
      requires Valid()
      modifies this
      ensures Valid()
      ensures key == NameSubjectKey ==> filter == old(filter).(nameSubject := value)
      ensures key == IdSchoolYearKey ==> filter == old(filter).(idSchoolYear := value)
      ensures subjects == old(subjects) && form == old(form) && showModal == old(showModal)
      ensures editMode == old(editMode) && selected == old(selected)
    {
      match key
      case NameSubjectKey => filter := filter.(nameSubject := value);
      case IdSchoolYearKey => filter := filter.(idSchoolYear := value);
    }

    /** handleSaveSubject: any HTTP response, even a rejection, refetches,
        closes the modal and resets the form. */
    method Save(resp: Response, refetch: Reply<seq<Subject>>) returns (req: Request)
      requires Valid()
      modifies this
      ensures Valid()
      ensures req == SaveTarget(SubjectsUrl, old(EditingId()))
      ensures Proceeds(IgnoresStatus, resp) ==>
        && subjects == Refreshed(old(subjects), refetch, IgnoresStatus)
        && !showModal && form == BlankForm && !editMode && selected == None
        && filter == old(filter)
      ensures !Proceeds(IgnoresStatus, resp) ==> unchanged(this)
    {
      req := SaveTarget(SubjectsUrl, EditingId());
      if Proceeds(IgnoresStatus, resp) {
        Fetch(refetch);
        showModal := false;
        ResetForm();
      }
    }

    /** handleDeleteSubject: any HTTP response refetches. */
    method Delete(id: Value, resp: Response, refetch: Reply<seq<Subject>>) returns (req: Request)
      requires Valid()
      modifies this
      ensures Valid()
      ensures req == DeleteTarget(SubjectsUrl, id)
      ensures subjects == if Proceeds(IgnoresStatus, resp) then Refreshed(old(subjects), refetch, IgnoresStatus) else old(subjects)
      ensures form == old(form) && showModal == old(showModal) && editMode == old(editMode)
      ensures selected == old(selected) && filter == old(filter)
    {
      req := DeleteTarget(SubjectsUrl, id);
      if Proceeds(IgnoresStatus, resp) {
        Fetch(refetch);
      }
    }
  }
}
