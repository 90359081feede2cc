/** The subjects-taken screen: which student took which subject in which
    school year, with a final grade. All its requests, the fetch included,
    check the response status. */
module SubjectsTaken {
  import opened Js
  import opened Crud

  const SubjectsTakenUrl := "http://localhost:4000/api/subjects_taken"

  /** A row of the subjects-taken list. */
  datatype Taken = Taken(
    idSubjectTaken: Value, idStudent: Value, idSubject: Value, idSchoolYear: Value,
    finalGrade: Value, createdAt: Value, updatedAt: Value)

  /** The four inputs of the modal. */
  datatype TakenForm = TakenForm(idStudent: Value, idSubject: Value, idSchoolYear: Value, finalGrade: Value)

  const BlankForm := TakenForm(Str(""), Str(""), Str(""), Str(""))

  datatype TakenFilter = TakenFilter(idStudent: string, idSchoolYear: string)

  datatype FilterKey = IdStudentKey | IdSchoolYearKey

  /** `row` with the columns of form `f` written over it; its id and the
      columns the form does not hold stay as they were. */
  function Updated(row: Taken, f: TakenForm): Taken {
    row.(
      idStudent := f.idStudent, idSubject := f.idSubject, idSchoolYear := f.idSchoolYear,
      finalGrade := f.finalGrade)
  }

  function EditForm(t: Taken): (r: TakenForm)
    ensures Updated(t, r) == t
  {
    TakenForm(t.idStudent, t.idSubject, t.idSchoolYear, t.finalGrade)
  }

  /** The callback of `filteredSubjectsTaken`: the texts of the student id and
      the school year id contain their filters; the year is only read when the
      student matched. */
  function Shows(t: Taken, f: TakenFilter): (r: Eval<bool>)
    ensures r.Throws? <==>
      Nullish(t.idStudent) || (Includes(Interpolate(t.idStudent), f.idStudent) && Nullish(t.idSchoolYear))
    ensures r == Returns(true) <==>
      !Nullish(t.idStudent) && Includes(Interpolate(t.idStudent), f.idStudent)
        && !Nullish(t.idSchoolYear) && Includes(Interpolate(t.idSchoolYear), f.idSchoolYear)
  {
    var student :- ToText(t.idStudent);
    if !Includes(student, f.idStudent) then Returns(false)
    else
      var year :- ToText(t.idSchoolYear);
      Returns(Includes(year, f.idSchoolYear))
  }

  function FilteredSubjectsTaken(rows: seq<Taken>, f: TakenFilter): (r: Eval<seq<Taken>>)
    ensures r.Returns? <==> forall i :: 0 <= i < |rows| ==> Shows(rows[i], f).Returns?
    ensures r.Returns? ==> Subsequence(r.value, rows)
    ensures r.Returns? ==> forall t :: t in r.value <==> t in rows && Shows(t, f) == Returns(true)
    ensures r.Returns? ==> forall t :: multiset(r.value)[t] == if Shows(t, f) == Returns(true) then multiset(rows)[t] else 0
  {
    Keep(rows, t => Shows(t, f))
  }

  /** The filter throws exactly when some row has a missing student id, or a
      matching student id and a missing school year id. */
  lemma FilteredSubjectsTakenThrows(rows: seq<Taken>, f: TakenFilter)
    ensures FilteredSubjectsTaken(rows, f).Throws? <==>
      exists t :: t in rows &&
        (Nullish(t.idStudent) || (Includes(Interpolate(t.idStudent), f.idStudent) && Nullish(t.idSchoolYear)))
  {
  }

  /** A row is shown iff the texts of its student id and school year id contain
      their filters. */
  lemma SubjectTakenShownIff(rows: seq<Taken>, f: TakenFilter, t: Taken)
    requires FilteredSubjectsTaken(rows, f).Returns?
    ensures Subsequence(FilteredSubjectsTaken(rows, f).value, rows)
    ensures t in FilteredSubjectsTaken(rows, f).value <==>
      && t in rows
      && !Nullish(t.idStudent) && Includes(Interpolate(t.idStudent), f.idStudent)
      && !Nullish(t.idSchoolYear) && Includes(Interpolate(t.idSchoolYear), f.idSchoolYear)
  {
  }

  /** Narrowing a filter (typing more characters) never shows a row the wider
      filter hid. */
  lemma {:induction false} NarrowingHidesMore(rows: seq<Taken>, f: TakenFilter, g: TakenFilter, t: Taken)
    requires FilteredSubjectsTaken(rows, f).Returns? && FilteredSubjectsTaken(rows, g).Returns?
    requires IsPrefix(f.idStudent, g.idStudent) && IsPrefix(f.idSchoolYear, g.idSchoolYear)
    ensures t in FilteredSubjectsTaken(rows, g).value ==> t in FilteredSubjectsTaken(rows, f).value
  {
    if t in FilteredSubjectsTaken(rows, g).value {
      IncludesPrefix(Interpolate(t.idStudent), f.idStudent, g.idStudent);
      IncludesPrefix(Interpolate(t.idSchoolYear), f.idSchoolYear, g.idSchoolYear);
    }
  }

  /** The component's state. */
  class SubjectsTakenScreen {
    var rows: seq<Taken>
    var form: TakenForm
    var showModal: bool
    var editMode: bool
    var selected: Option<Taken>
    var filter: TakenFilter

    /** In edit mode a row is selected. */
    ghost predicate Valid()
      reads this
    {
      editMode ==> selected.Some?
    }

    function EditingId(): Option<Value>
      reads this
      requires Valid()
    {
      if editMode then Some(selected.value.idSubjectTaken) else None
    }

    function Visible(): Eval<seq<Taken>>
      reads this
    {
      FilteredSubjectsTaken(rows, filter)
    }

    constructor ()
      ensures Valid()
      ensures rows == [] && form == BlankForm && !showModal && !editMode
      ensures selected == None && filter == TakenFilter("", "")
    {
      rows := [];
      form := BlankForm;
      showModal := false;
      editMode := false;
      selected := None;
      filter := TakenFilter("", "");
    }

    /** fetchSubjectsTaken: a non-ok status throws and keeps the list. */
    method Fetch(reply: Reply<seq<Taken>>)
      requires Valid()
      modifies this
      ensures Valid()
      ensures rows == Refreshed(old(rows), reply, ChecksOk)
      ensures form == old(form) && showModal == old(showModal) && editMode == old(editMode)
      ensures selected == old(selected) && filter == old(filter)
    {
      rows := Refreshed(rows, reply, ChecksOk);
    }

    /** The "Add Subject Taken" button. */
    method OpenForAdd()
      requires Valid()
      modifies this
      ensures Valid() && showModal
      ensures rows == old(rows) && form == old(form) && editMode == old(editMode)
      ensures selected == old(selected) && filter == old(filter)
    {
      showModal := true;
    }

    /** handleEditSubjectTaken: the four fields copied as they are. */
    method Edit(t: Taken)
      requires Valid()
      modifies this
      ensures Valid()
      ensures selected == Some(t) && editMode && showModal
      ensures form.idStudent == t.idStudent && form.idSubject == t.idSubject
      ensures form.idSchoolYear == t.idSchoolYear && form.finalGrade == t.finalGrade
      ensures rows == old(rows) && filter == old(filter)
    {
      selected := Some(t);
      form := EditForm(t);
      editMode := true;
      showModal := true;
    }

    /** resetForm */
    method ResetForm()
      requires Valid()
      modifies this
      ensures Valid()
      ensures form == BlankForm && !editMode && selected == None
      ensures rows == old(rows) && showModal == old(showModal) && filter == old(filter)
    {
      form := BlankForm;
      editMode := false;
      selected := None;
    }

    /** handleCloseModal */
    method CloseModal()
      requires Valid()
      modifies this
      ensures Valid()
      ensures !showModal && form == BlankForm && !editMode && selected == None
      ensures rows == old(rows) && filter == old(filter)
    {
      showModal := false;
      ResetForm();
    }

    /** handleFilterChange */
    method FilterChange(key: FilterKey, value: string)
      requires Valid()
      modifies this
      ensures Valid()
      ensures key == IdStudentKey ==> filter == old(filter).(idStudent := value)
      ensures key == IdSchoolYearKey ==> filter == old(filter).(idSchoolYear := value)
      ensures rows == old(rows) && form == old(form) && showModal == old(showModal)
      ensures editMode == old(editMode) && selected == old(selected)
    {
      match key
      case IdStudentKey => filter := filter.(idStudent := value);
      case IdSchoolYearKey => filter := filter.(idSchoolYear := value);
    }

    /** handleSaveSubjectTaken: only an ok response refetches, closes and resets. */
    method Save(resp: Response, refetch: Reply<seq<Taken>>) returns (req: Request)
      requires Valid()
      modifies this
      ensures Valid()
      ensures req == SaveTarget(SubjectsTakenUrl, old(EditingId()))
      ensures Proceeds(ChecksOk, resp) ==>
        && rows == Refreshed(old(rows), refetch, ChecksOk)
        && !showModal && form == BlankForm && !editMode && selected == None
        && filter == old(filter)
      ensures !Proceeds(ChecksOk, resp) ==> unchanged(this)
    {
      req := SaveTarget(SubjectsTakenUrl, EditingId());
      if Proceeds(ChecksOk, resp) {
        Fetch(refetch);
        showModal := false;
        ResetForm();
      }
    }

    /** handleDeleteSubjectTaken: only an ok response refetches. */
    method Delete(id: Value, resp: Response, refetch: Reply<seq<Taken>>) returns (req: Request)
      requires Valid()
      modifies this
      ensures Valid()
      ensures req == DeleteTarget(SubjectsTakenUrl, id)
      ensures rows == if Proceeds(ChecksOk, resp) then Refreshed(old(rows), refetch, ChecksOk) else old(rows)
      ensures form == old(form) && showModal == old(showModal) && editMode == old(editMode)
      ensures selected == old(selected) && filter == old(filter)
    {
      req := DeleteTarget(SubjectsTakenUrl, id);
      if Proceeds(ChecksOk, resp) {
        Fetch(refetch);
      }
    }
  }
}
