/** The school years screen: a list of school years filtered by grade and
    status, and a modal form whose four dates are checked and reformatted
    before the save. None of its requests look at the response status. */
module SchoolYear {
  import opened Js
  import opened Crud

  const SchoolYearsUrl := "http://localhost:4000/api/school_years"

  /** A row of the school years list. */
  datatype Year = Year(
    idSchoolYear: Value, schoolGrade: Value, startYear: Value, endOfYear: Value,
    numberOfSchoolDays: Value, scheduledVacation: Value, specialEvents: Value,
    schoolYearStatus: Value)

  /** The seven inputs of the school year modal. */
  datatype YearForm = YearForm(
    schoolGrade: Value, startYear: Value, endOfYear: Value, numberOfSchoolDays: Value,
    scheduledVacation: Value, specialEvents: Value, schoolYearStatus: Value)

  const BlankForm := YearForm(Str(""), Str(""), Str(""), Str(""), Str(""), Str(""), Str(""))

  datatype YearFilter = YearFilter(schoolGrade: string, schoolYearStatus: string)

  datatype FilterKey = SchoolGradeKey | SchoolYearStatusKey

  /** `row` with the columns of form `f` written over it; its id and the
      columns the form does not hold stay as they were. */
  function Updated(row: Year, f: YearForm): Year {
    row.(
      schoolGrade := f.schoolGrade, startYear := f.startYear, endOfYear := f.endOfYear,
      numberOfSchoolDays := f.numberOfSchoolDays, scheduledVacation := f.scheduledVacation,
      specialEvents := f.specialEvents, schoolYearStatus := f.schoolYearStatus)
  }

  function EditForm(y: Year): (r: YearForm)
    ensures Updated(y, r) == y
  {
    YearForm(y.schoolGrade, y.startYear, y.endOfYear, y.numberOfSchoolDays,
      y.scheduledVacation, y.specialEvents, y.schoolYearStatus)
  }

  /** The guard of handleSaveSchoolYear: all four date inputs filled in. */
  predicate DatesComplete(f: YearForm): (r: bool)
    ensures r <==> forall v :: v in [f.startYear, f.endOfYear, f.scheduledVacation, f.specialEvents] ==>
      v != Undefined && v != Null && v != Str("") && v != Num(0)
  {
    var required := [f.startYear, f.endOfYear, f.scheduledVacation, f.specialEvents];
    assert f.startYear in required && f.endOfYear in required
      && f.scheduledVacation in required && f.specialEvents in required;
    Truthy(f.startYear) && Truthy(f.endOfYear) && Truthy(f.scheduledVacation) && Truthy(f.specialEvents)
  }

  /** `new Date(v).toISOString().split('T')[0]`, where `iso` stands for the
      browser's date parsing and formatting: None is the RangeError of an
      invalid date. */
  function DatePart(v: Value, iso: Value -> Option<string>): (r: Option<Value>)
    ensures r.Some? <==> iso(v).Some?
    ensures r.Some? ==> r.value.Str? && 'T' !in r.value.s && IsPrefix(r.value.s, iso(v).value)
    ensures r.Some? && |r.value.s| < |iso(v).value| ==> iso(v).value[|r.value.s|] == 'T'
  {
    match iso(v)
    case None => None
    case Some(text) => Some(Str(BeforeFirst(text, 'T')))
  }

  /** `formattedData`: the form with its four dates reduced to their date part;
      it fails when any of them is not a valid date. */
  function FormattedData(f: YearForm, iso: Value -> Option<string>): (r: Option<YearForm>)
    ensures r.Some? <==>
      iso(f.startYear).Some? && iso(f.endOfYear).Some? && iso(f.scheduledVacation).Some? && iso(f.specialEvents).Some?
    ensures r.Some? ==>
      && r.value.schoolGrade == f.schoolGrade && r.value.numberOfSchoolDays == f.numberOfSchoolDays
      && r.value.schoolYearStatus == f.schoolYearStatus
      && r.value.startYear == DatePart(f.startYear, iso).value
      && r.value.endOfYear == DatePart(f.endOfYear, iso).value
      && r.value.scheduledVacation == DatePart(f.scheduledVacation, iso).value
      && r.value.specialEvents == DatePart(f.specialEvents, iso).value
  {
    match (DatePart(f.startYear, iso), DatePart(f.endOfYear, iso), DatePart(f.scheduledVacation, iso), DatePart(f.specialEvents, iso))
    case (Some(start), Some(end), Some(vacation), Some(events)) =>
      Some(f.(startYear := start, endOfYear := end, scheduledVacation := vacation, specialEvents := events))
    case _ => None
  }

  /** Every date the save sends is a plain date: a string without a time part. */
  lemma FormattedDatesHaveNoTime(f: YearForm, iso: Value -> Option<string>)
    requires FormattedData(f, iso).Some?
    ensures var d := FormattedData(f, iso).value;
      && d.startYear.Str? && 'T' !in d.startYear.s
      && d.endOfYear.Str? && 'T' !in d.endOfYear.s
      && d.scheduledVacation.Str? && 'T' !in d.scheduledVacation.s
      && d.specialEvents.Str? && 'T' !in d.specialEvents.s
  {
  }

  /** The callback of `filteredSchoolYears`: grade and status both strings that
      contain their filters ignoring case; the status is only read when the
      grade matched. */
  function Shows(y: Year, f: YearFilter): (r: Eval<bool>)
    ensures r.Throws? <==>
      !y.schoolGrade.Str?
        || (Includes(Lower(y.schoolGrade.s), Lower(f.schoolGrade)) && !y.schoolYearStatus.Str?)
    ensures r == Returns(true) <==>
      y.schoolGrade.Str? && Includes(Lower(y.schoolGrade.s), Lower(f.schoolGrade))
        && y.schoolYearStatus.Str? && Includes(Lower(y.schoolYearStatus.s), Lower(f.schoolYearStatus))
  {
    var grade :- ToLowerCase(y.schoolGrade);
    if !Includes(grade, Lower(f.schoolGrade)) then Returns(false)
    else
      var status :- ToLowerCase(y.schoolYearStatus);
      Returns(Includes(status, Lower(f.schoolYearStatus)))
  }

  function FilteredSchoolYears(years: seq<Year>, f: YearFilter): (r: Eval<seq<Year>>)
    ensures r.Returns? <==> forall i :: 0 <= i < |years| ==> Shows(years[i], f).Returns?
    ensures r.Returns? ==> Subsequence(r.value, years)
    ensures r.Returns? ==> forall y :: y in r.value <==> y in years && Shows(y, f) == Returns(true)
    ensures r.Returns? ==> forall y :: multiset(r.value)[y] == if Shows(y, f) == Returns(true) then multiset(years)[y] else 0
  {
    Keep(years, y => Shows(y, f))
  }

  /** The filter throws exactly when some grade is not a string, or some grade
      matches and its status is not a string. */
  lemma FilteredSchoolYearsThrows(years: seq<Year>, f: YearFilter)
    ensures FilteredSchoolYears(years, f).Throws? <==>
      exists y :: y in years &&
        (!y.schoolGrade.Str? ||
         (Includes(Lower(y.schoolGrade.s), Lower(f.schoolGrade)) && !y.schoolYearStatus.Str?))
  {
  }

  /** A school year is shown iff its grade and status are strings containing
      their filters ignoring case. */
  lemma SchoolYearShownIff(years: seq<Year>, f: YearFilter, y: Year)
    requires FilteredSchoolYears(years, f).Returns?
    ensures Subsequence(FilteredSchoolYears(years, f).value, years)
    ensures y in FilteredSchoolYears(years, f).value <==>
      && y in years
      && y.schoolGrade.Str? && Includes(Lower(y.schoolGrade.s), Lower(f.schoolGrade))
      && y.schoolYearStatus.Str? && Includes(Lower(y.schoolYearStatus.s), Lower(f.schoolYearStatus))
  {
  }

  /** With both filters empty every school year is shown, in order, as long as
      every grade and status is a string. */
  lemma UnfilteredShowsAll(years: seq<Year>)
    requires forall i :: 0 <= i < |years| ==> years[i].schoolGrade.Str? && years[i].schoolYearStatus.Str?
    ensures FilteredSchoolYears(years, YearFilter("", "")) == Returns(years)
  {
    var f := YearFilter("", "");
    forall i | 0 <= i < |years|
      ensures Shows(years[i], f) == Returns(true)
    {
      IncludesEmpty(Lower(years[i].schoolGrade.s));
      IncludesEmpty(Lower(years[i].schoolYearStatus.s));
    }
    KeepAll(years, y => Shows(y, f));
  }

  /** The component's state. */
  class SchoolYearScreen {
    var years: seq<Year>
    var form: YearForm
    var showModal: bool
    var editMode: bool
    var selected: Option<Year>
    var filter: YearFilter

    /** In edit mode a school year is selected. */
    ghost predicate Valid()
      reads this
    {
      editMode ==> selected.Some?
    }

    function EditingId(): Option<Value>
      reads this
      requires Valid()
    {
      if editMode then Some(selected.value.idSchoolYear) else None
    }

    function Visible(): Eval<seq<Year>>
      reads this
    {
      FilteredSchoolYears(years, filter)
    }

    constructor ()
      ensures Valid()
      ensures years == [] && form == BlankForm && !showModal && !editMode
      ensures selected == None && filter == YearFilter("", "")
    {
      years := [];
      form := BlankForm;
      showModal := false;
      editMode := false;
      selected := None;
      filter := YearFilter("", "");
    }

    /** fetchSchoolYears: the list becomes the reply's body, whatever its status. */
    method Fetch(reply: Reply<seq<Year>>)
      requires Valid()
      modifies this
      ensures Valid()
      ensures years == Refreshed(old(years), reply, IgnoresStatus)
      ensures form == old(form) && showModal == old(showModal) && editMode == old(editMode)
      ensures selected == old(selected) && filter == old(filter)
    {
      years := Refreshed(years, reply, IgnoresStatus);
    }

    /** The "Add School Year" button. */
    method OpenForAdd()
      requires Valid()
      modifies this
      ensures Valid() && showModal
      ensures years == old(years) && form == old(form) && editMode == old(editMode)
      ensures selected == old(selected) && filter == old(filter)
    {
      showModal := true;
    }

    /** handleEditSchoolYear: the seven fields copied as they are. */
    method Edit(y: Year)
      requires Valid()
      modifies this
      ensures Valid()
      ensures selected == Some(y) && editMode && showModal
      ensures form.schoolGrade == y.schoolGrade && form.startYear == y.startYear
      ensures form.endOfYear == y.endOfYear && form.numberOfSchoolDays == y.numberOfSchoolDays
      ensures form.scheduledVacation == y.scheduledVacation && form.specialEvents == y.specialEvents
      ensures form.schoolYearStatus == y.schoolYearStatus
      ensures years == old(years) && filter == old(filter)
    {
      selected := Some(y);
      form := EditForm(y);
      editMode := true;
      showModal := true;
    }

    /** resetForm */
    method ResetForm()
      requires Valid()
      modifies this
      ensures Valid()
      ensures form == BlankForm && !editMode && selected == None
      ensures years == old(years) && showModal == old(showModal) && filter == old(filter)
    {
      form := BlankForm;
      editMode := false;
      selected := None;
    }

    /** handleCloseModal */
    method CloseModal()
      requires Valid()
      modifies this
      ensures Valid()
      ensures !showModal && form == BlankForm && !editMode && selected == None
      ensures years == old(years) && filter == old(filter)
    {
      showModal := false;
      ResetForm();
    }

    /** handleFilterChange */
    method FilterChange(key: FilterKey, value: string)
      requires Valid()
      modifies this
      ensures Valid()
      ensures key == SchoolGradeKey ==> filter == old(filter).(schoolGrade := value)
      ensures key == SchoolYearStatusKey ==> filter == old(filter).(schoolYearStatus := value)
      ensures years == old(years) && form == old(form) && showModal == old(showModal)
      ensures editMode == old(editMode) && selected == old(selected)
    {
      match key
      case SchoolGradeKey => filter := filter.(schoolGrade := value);
      case SchoolYearStatusKey => filter := filter.(schoolYearStatus := value);
    }

    /** handleSaveSchoolYear: an incomplete form (the alert) or an invalid date
        (a RangeError raised before the `try`) sends nothing and changes nothing.
        Otherwise the reformatted form goes out, and any HTTP response refetches,
        closes the modal and resets the form. */
    method Save(iso: Value -> Option<string>, resp: Response, refetch: Reply<seq<Year>>)
      returns (req: Option<Request>, sent: Option<YearForm>)
      requires Valid()
      modifies this
      ensures Valid()
      ensures req.Some? <==> DatesComplete(old(form)) && FormattedData(old(form), iso).Some?
      ensures req.Some? ==> req.value == SaveTarget(SchoolYearsUrl, old(EditingId()))
      ensures sent == (if req.Some? then FormattedData(old(form), iso) else None)
      ensures req.Some? && Proceeds(IgnoresStatus, resp) ==>
        && years == Refreshed(old(years), refetch, IgnoresStatus)
        && !showModal && form == BlankForm && !editMode && selected == None
        && filter == old(filter)
      ensures !(req.Some? && Proceeds(IgnoresStatus, resp)) ==> unchanged(this)
    {
      if !DatesComplete(form) {
        return None, None;
      }
      var data := FormattedData(form, iso);
      if data.None? {
        return None, None;
      }
      req, sent := Some(SaveTarget(SchoolYearsUrl, EditingId())), data;
      if Proceeds(IgnoresStatus, resp) {
        Fetch(refetch);
        showModal := false;
        ResetForm();
      }
    }

    /** handleDeleteSchoolYear: any HTTP response refetches. */
    method Delete(id: Value, resp: Response, refetch: Reply<seq<Year>>) returns (req: Request)
      requires Valid()
      modifies this
      ensures Valid()
      ensures req == DeleteTarget(SchoolYearsUrl, id)
      ensures years == if Proceeds(IgnoresStatus, resp) then Refreshed(old(years), refetch, IgnoresStatus) else old(years)
      ensures form == old(form) && showModal == old(showModal) && editMode == old(editMode)
      ensures selected == old(selected) && filter == old(filter)
    {
      req := DeleteTarget(SchoolYearsUrl, id);
      if Proceeds(IgnoresStatus, resp) {
        Fetch(refetch);
      }
    }
  }
}
