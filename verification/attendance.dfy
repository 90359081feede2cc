/** The attendance screen: a list of attendance records filtered by student id
    and date, and a modal form to add or edit one. */
module Attendance {
  import opened Js
  import opened Crud

  const AttendanceUrl := "http://localhost:4000/api/attendance"

  /** A row of the attendance list. */
  datatype Record = Record(
    idAttendance: Value, idStudent: Value, idSection: Value, attendanceDate: Value,
    status: Value, remarks: Value, createdAt: Value, updatedAt: Value)

  /** The five inputs of the attendance modal. */
  datatype RecordForm = RecordForm(
    idStudent: Value, idSection: Value, attendanceDate: Value, status: Value, remarks: Value)

  const BlankForm := RecordForm(Str(""), Str(""), Str(""), Str(""), Str(""))

  datatype RecordFilter = RecordFilter(idStudent: string, attendanceDate: string)

  datatype FilterKey = IdStudentKey | AttendanceDateKey

  /** `row` with the columns of form `f` written over it; its id and the
      columns the form does not hold stay as they were. */
  function Updated(row: Record, f: RecordForm): Record {
    row.(
      idStudent := f.idStudent, idSection := f.idSection, attendanceDate := f.attendanceDate,
      status := f.status, remarks := f.remarks)
  }

  function EditForm(a: Record): (r: RecordForm)
    ensures Updated(a, r) == a
  {
    RecordForm(a.idStudent, a.idSection, a.attendanceDate, a.status, a.remarks)
  }

  /** The callback of `filteredAttendances`: the student id's text contains the
      id filter and, when it does, the date string contains the date filter.
      The date is read with `includes`, which only strings have. */
  function Shows(a: Record, f: RecordFilter): (r: Eval<bool>)
    ensures r.Throws? <==>
      Nullish(a.idStudent) || (Includes(Interpolate(a.idStudent), f.idStudent) && !a.attendanceDate.Str?)
    ensures r == Returns(true) <==>
      !Nullish(a.idStudent) && Includes(Interpolate(a.idStudent), f.idStudent)
        && a.attendanceDate.Str? && Includes(a.attendanceDate.s, f.attendanceDate)
  {
    var student :- ToText(a.idStudent);
    if !Includes(student, f.idStudent) then Returns(false)
    else StrIncludes(a.attendanceDate, f.attendanceDate)
  }

  function FilteredAttendances(records: seq<Record>, f: RecordFilter): (r: Eval<seq<Record>>)
    ensures r.Returns? <==> forall i :: 0 <= i < |records| ==> Shows(records[i], f).Returns?
    ensures r.Returns? ==> Subsequence(r.value, records)
    ensures r.Returns? ==> forall a :: a in r.value <==> a in records && Shows(a, f) == Returns(true)
    ensures r.Returns? ==> forall a :: multiset(r.value)[a] == if Shows(a, f) == Returns(true) then multiset(records)[a] else 0
  {
    Keep(records, a => Shows(a, f))
  }

  /** The filter throws exactly when some record has a missing student id, or a
      matching student id and a date that is not a string. */
  lemma FilteredAttendancesThrows(records: seq<Record>, f: RecordFilter)
    ensures FilteredAttendances(records, f).Throws? <==>
      exists a :: a in records &&
        (Nullish(a.idStudent) || (Includes(Interpolate(a.idStudent), f.idStudent) && !a.attendanceDate.Str?))
  {
  }

  /** A record is shown iff its student id's text contains the id filter and its
      date is a string containing the date filter (both case-sensitively). */
  lemma AttendanceShownIff(records: seq<Record>, f: RecordFilter, a: Record)
    requires FilteredAttendances(records, f).Returns?
    ensures Subsequence(FilteredAttendances(records, f).value, records)
    ensures a in FilteredAttendances(records, f).value <==>
      && a in records
      && !Nullish(a.idStudent) && Includes(Interpolate(a.idStudent), f.idStudent)
      && a.attendanceDate.Str? && Includes(a.attendanceDate.s, f.attendanceDate)
  {
  }

  /** With empty filters every record is shown when each has a student id and a
      string date. */
  lemma UnfilteredShowsAll(records: seq<Record>)
    requires forall i :: 0 <= i < |records| ==> !Nullish(records[i].idStudent) && records[i].attendanceDate.Str?
    ensures FilteredAttendances(records, RecordFilter("", "")) == Returns(records)
  {
    var f := RecordFilter("", "");
    forall i | 0 <= i < |records|
      ensures Shows(records[i], f) == Returns(true)
    {
      IncludesEmpty(Interpolate(records[i].idStudent));
      IncludesEmpty(records[i].attendanceDate.s);
    }
    KeepAll(records, a => Shows(a, f));
  }

  /** The component's state. */
  class AttendanceScreen {
    var records: seq<Record>
    var form: RecordForm
    var showModal: bool
    var editMode: bool
    var selected: Option<Record>
    var filter: RecordFilter

    /** In edit mode a record is selected. */
    ghost predicate Valid()
      reads this
    {
      editMode ==> selected.Some?
    }

    function EditingId(): Option<Value>
      reads this
      requires Valid()
    {
      if editMode then Some(selected.value.idAttendance) else None
    }

    function Visible(): Eval<seq<Record>>
      reads this
    {
      FilteredAttendances(records, filter)
    }

    constructor ()
      ensures Valid()
      ensures records == [] && form == BlankForm && !showModal && !editMode
      ensures selected == None && filter == RecordFilter("", "")
    {
      records := [];
      form := BlankForm;
      showModal := false;
      editMode := false;
      selected := None;
      filter := RecordFilter("", "");
    }

    /** fetchAttendances: the list becomes the reply's body, whatever its status. */
    method Fetch(reply: Reply<seq<Record>>)
      requires Valid()
      modifies this
      ensures Valid()
      ensures records == Refreshed(old(records), reply, IgnoresStatus)
      ensures form == old(form) && showModal == old(showModal) && editMode == old(editMode)
      ensures selected == old(selected) && filter == old(filter)
    {
      records := Refreshed(records, reply, IgnoresStatus);
    }

    /** The "Add Attendance Record" button. */
    method OpenForAdd()
      requires Valid()
      modifies this
      ensures Valid() && showModal
      ensures records == old(records) && form == old(form) && editMode == old(editMode)
      ensures selected == old(selected) && filter == old(filter)
    {
      showModal := true;
    }

    /** handleEditAttendance: the five fields copied as they are. */
    method Edit(a: Record)
      requires Valid()
      modifies this
      ensures Valid()
      ensures selected == Some(a) && editMode && showModal
      ensures form.idStudent == a.idStudent && form.idSection == a.idSection
      ensures form.attendanceDate == a.attendanceDate && form.status == a.status
      ensures form.remarks == a.remarks
      ensures records == old(records) && filter == old(filter)
    {
      selected := Some(a);
      form := EditForm(a);
      editMode := true;
      showModal := true;
    }

    /** resetForm */
    method ResetForm()
      requires Valid()
      modifies this
      ensures Valid()
      ensures form == BlankForm && !editMode && selected == None
      ensures records == old(records) && showModal == old(showModal) && filter == old(filter)
    {
      form := BlankForm;
      editMode := false;
      selected := None;
    }

    /** handleCloseModal */
    method CloseModal()
      requires Valid()
      modifies this
      ensures Valid()
      ensures !showModal && form == BlankForm && !editMode && selected == None
      ensures records == old(records) && filter == old(filter)
    {
      showModal := false;
      ResetForm();
    }

    /** handleFilterChange */
    method FilterChange(key: FilterKey, value: string)
      requires Valid()
      modifies this
      ensures Valid()
      ensures key == IdStudentKey ==> filter == old(filter).(idStudent := value)
      ensures key == AttendanceDateKey ==> filter == old(filter).(attendanceDate := value)
      ensures records == old(records) && form == old(form) && showModal == old(showModal)
      ensures editMode == old(editMode) && selected == old(selected)
    {
      match key
      case IdStudentKey => filter := filter.(idStudent := value);
      case AttendanceDateKey => filter := filter.(attendanceDate := value);
    }

    /** handleSaveAttendance: only an ok response refetches, closes and resets. */
    method Save(resp: Response, refetch: Reply<seq<Record>>) returns (req: Request)
      requires Valid()
      modifies this
      ensures Valid()
      ensures req == SaveTarget(AttendanceUrl, old(EditingId()))
      ensures Proceeds(ChecksOk, resp) ==>
        && records == Refreshed(old(records), refetch, IgnoresStatus)
        && !showModal && form == BlankForm && !editMode && selected == None
        && filter == old(filter)
      ensures !Proceeds(ChecksOk, resp) ==> unchanged(this)
    {
      req := SaveTarget(AttendanceUrl, EditingId());
      if Proceeds(ChecksOk, resp) {
        Fetch(refetch);
        showModal := false;
        ResetForm();
      }
    }

    /** handleDeleteAttendance: only an ok response refetches. */
    method Delete(id: Value, resp: Response, refetch: Reply<seq<Record>>) returns (req: Request)
      requires Valid()
      modifies this
      ensures Valid()
      ensures req == DeleteTarget(AttendanceUrl, id)
      ensures records == if Proceeds(ChecksOk, resp) then Refreshed(old(records), refetch, IgnoresStatus) else old(records)
      ensures form == old(form) && showModal == old(showModal) && editMode == old(editMode)
      ensures selected == old(selected) && filter == old(filter)
    {
      req := DeleteTarget(AttendanceUrl, id);
      if Proceeds(ChecksOk, resp) {
        Fetch(refetch);
      }
    }
  }
}
