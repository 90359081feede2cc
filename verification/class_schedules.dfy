/** The class schedules screen: a list of schedules filtered by weekday and
    classroom, and a modal form to add or edit one. Unlike most screens, its
    fetch checks the status and normalises two columns of every row. */
module ClassSchedules {
  import opened Js
  import opened Crud

  const ClassSchedulesUrl := "http://localhost:4000/api/class_schedules"

  /** A row of the schedules list. */
  datatype Schedule = Schedule(
    idClassSchedules: Value, startDate: Value, endDate: Value, classroom: Value,
    startTime: Value, endTime: Value, unforeseenEvents: Value, dayOfWeek: Value,
    createdAt: Value, updatedAt: Value)

  /** The seven inputs of the schedule modal. */
  datatype ScheduleForm = ScheduleForm(
    startDate: Value, endDate: Value, classroom: Value, startTime: Value,
    endTime: Value, unforeseenEvents: Value, dayOfWeek: Value)

  const BlankForm := ScheduleForm(Str(""), Str(""), Str(""), Str(""), Str(""), Str(""), Str(""))

  datatype ScheduleFilter = ScheduleFilter(dayOfWeek: string, classroom: string)

  datatype FilterKey = DayOfWeekKey | ClassroomKey

  /** A fetched row as the screen keeps it: a falsy weekday or classroom becomes
      '', every other column is kept. */
  function Normalise(s: Schedule): (r: Schedule)
    ensures r.dayOfWeek == (if Truthy(s.dayOfWeek) then s.dayOfWeek else Str(""))
    ensures r.classroom == (if Truthy(s.classroom) then s.classroom else Str(""))
    ensures r.(dayOfWeek := s.dayOfWeek, classroom := s.classroom) == s
  {
    s.(dayOfWeek := Or(s.dayOfWeek, Str("")), classroom := Or(s.classroom, Str("")))
  }

  /** A row in normal form: its weekday and classroom are truthy or ''. */
  predicate Normalised(s: Schedule) {
    (Truthy(s.dayOfWeek) || s.dayOfWeek == Str("")) && (Truthy(s.classroom) || s.classroom == Str(""))
  }

  /** `data.map(...)`: the rows normalised one by one, in order. */
  function NormaliseAll(rows: seq<Schedule>): (r: seq<Schedule>)
    ensures |r| == |rows|
    ensures forall i :: 0 <= i < |rows| ==> r[i] == Normalise(rows[i])
    ensures forall i :: 0 <= i < |r| ==> Normalised(r[i])
  {
    if rows == [] then [] else [Normalise(rows[0])] + NormaliseAll(rows[1..])
  }

  /** Normalising puts a row in normal form and leaves a row already in it alone. */
  lemma NormaliseIdempotent(s: Schedule)
    ensures Normalised(Normalise(s))
    ensures Normalised(s) ==> Normalise(s) == s
    ensures Normalise(Normalise(s)) == Normalise(s)
  {
  }

  /** `row` with the columns of form `f` written over it; its id and the
      columns the form does not hold stay as they were. */
  function Updated(row: Schedule, f: ScheduleForm): Schedule {
    row.(
      startDate := f.startDate, endDate := f.endDate, classroom := f.classroom,
      startTime := f.startTime, endTime := f.endTime, unforeseenEvents := f.unforeseenEvents,
      dayOfWeek := f.dayOfWeek)
  }

  function EditForm(s: Schedule): (r: ScheduleForm)
    ensures Updated(s, r) == s
  {
    ScheduleForm(s.startDate, s.endDate, s.classroom, s.startTime, s.endTime, s.unforeseenEvents, s.dayOfWeek)
  }

  /** The callback of `filteredSchedules`: both columns truthy and containing
      their filters ignoring case. */
  function Shows(s: Schedule, f: ScheduleFilter): (r: Eval<bool>)
    ensures r.Throws? <==>
      (Truthy(s.dayOfWeek) && !s.dayOfWeek.Str?)
        || (s.dayOfWeek.Str? && s.dayOfWeek.s != "" && Includes(Lower(s.dayOfWeek.s), Lower(f.dayOfWeek))
            && Truthy(s.classroom) && !s.classroom.Str?)
    ensures r == Returns(true) <==>
      s.dayOfWeek.Str? && s.dayOfWeek.s != "" && Includes(Lower(s.dayOfWeek.s), Lower(f.dayOfWeek))
        && s.classroom.Str? && s.classroom.s != "" && Includes(Lower(s.classroom.s), Lower(f.classroom))
  {
    var byDay :- MatchesIgnoringCase(s.dayOfWeek, f.dayOfWeek);
    if !byDay then Returns(false) else MatchesIgnoringCase(s.classroom, f.classroom)
  }

  function FilteredSchedules(schedules: seq<Schedule>, f: ScheduleFilter): (r: Eval<seq<Schedule>>)
    ensures r.Returns? <==> forall i :: 0 <= i < |schedules| ==> Shows(schedules[i], f).Returns?
    ensures r.Returns? ==> Subsequence(r.value, schedules)
    ensures r.Returns? ==> forall s :: s in r.value <==> s in schedules && Shows(s, f) == Returns(true)
    ensures r.Returns? ==> forall s :: multiset(r.value)[s] == if Shows(s, f) == Returns(true) then multiset(schedules)[s] else 0
  {
    Keep(schedules, s => Shows(s, f))
  }

  /** A schedule is shown iff its weekday and classroom are non-empty strings
      containing their filters ignoring case. */
  lemma ScheduleShownIff(schedules: seq<Schedule>, f: ScheduleFilter, s: Schedule)
    requires FilteredSchedules(schedules, f).Returns?
    ensures Subsequence(FilteredSchedules(schedules, f).value, schedules)
    ensures s in FilteredSchedules(schedules, f).value <==>
      && s in schedules
      && s.dayOfWeek.Str? && s.dayOfWeek.s != "" && Includes(Lower(s.dayOfWeek.s), Lower(f.dayOfWeek))
      && s.classroom.Str? && s.classroom.s != "" && Includes(Lower(s.classroom.s), Lower(f.classroom))
  {
  }

  /** The filter throws exactly when some row has a truthy non-string weekday,
      or a matching weekday and a truthy non-string classroom; the normalisation
      turns falsy columns into '' but does not prevent this. */
  lemma FilteredSchedulesThrows(schedules: seq<Schedule>, f: ScheduleFilter)
    ensures FilteredSchedules(schedules, f).Throws? <==>
      exists s :: s in schedules &&
        ((Truthy(s.dayOfWeek) && !s.dayOfWeek.Str?)
         || (s.dayOfWeek.Str? && s.dayOfWeek.s != "" && Includes(Lower(s.dayOfWeek.s), Lower(f.dayOfWeek))
             && Truthy(s.classroom) && !s.classroom.Str?))
  {
  }

  /** A fetched row whose weekday or classroom was falsy, and so became '', is
      never shown, whatever the filters say. */
  lemma NormalisedBlankNeverShown(rows: seq<Schedule>, f: ScheduleFilter, s: Schedule)
    requires s in rows && (!Truthy(s.dayOfWeek) || !Truthy(s.classroom))
    ensures FilteredSchedules(NormaliseAll(rows), f).Returns? ==>
      Normalise(s) !in FilteredSchedules(NormaliseAll(rows), f).value
  {
  }

  /** Filtering a normalised list shows the same rows as filtering the raw one:
      the normalisation changes only falsy columns, which never match. */
  lemma {:induction false} NormaliseKeepsVisibility(rows: seq<Schedule>, f: ScheduleFilter)
    ensures FilteredSchedules(NormaliseAll(rows), f).Returns? <==> FilteredSchedules(rows, f).Returns?
    ensures FilteredSchedules(rows, f).Returns? ==>
      FilteredSchedules(NormaliseAll(rows), f).value == NormaliseAll(FilteredSchedules(rows, f).value)
  {
    if rows != [] {
      NormaliseKeepsVisibility(rows[1..], f);
      assert NormaliseAll(rows)[1..] == NormaliseAll(rows[1..]);
      assert Shows(Normalise(rows[0]), f) == Shows(rows[0], f);
      if FilteredSchedules(rows, f).Returns? && Shows(rows[0], f) == Returns(true) {
        var rest := FilteredSchedules(rows[1..], f).value;
        assert NormaliseAll([rows[0]] + rest)[1..] == NormaliseAll(rest);
      }
    }
  }

  /** The component's state. */
  class ClassSchedulesScreen {
    var schedules: seq<Schedule>
    var form: ScheduleForm
    var showModal: bool
    var editMode: bool
    var selected: Option<Schedule>
    var filter: ScheduleFilter

    /** In edit mode a schedule is selected. */
    ghost predicate Valid()
      reads this
    {
      editMode ==> selected.Some?
    }

    function EditingId(): Option<Value>
      reads this
      requires Valid()
    {
      if editMode then Some(selected.value.idClassSchedules) else None
    }

    function Visible(): Eval<seq<Schedule>>
      reads this
    {
      FilteredSchedules(schedules, filter)
    }

    constructor ()
      ensures Valid()
      ensures schedules == [] && form == BlankForm && !showModal && !editMode
      ensures selected == None && filter == ScheduleFilter("", "")
    {
      schedules := [];
      form := BlankForm;
      showModal := false;
      editMode := false;
      selected := None;
      filter := ScheduleFilter("", "");
    }

    /** fetchClassSchedules: a non-ok status throws and keeps the list; an ok
        reply replaces it with the normalised rows. */
    method Fetch(reply: Reply<seq<Schedule>>)
      requires Valid()
      modifies this
      ensures Valid()
      ensures reply.Reply? && reply.ok ==> schedules == NormaliseAll(reply.body)
      ensures !(reply.Reply? && reply.ok) ==> schedules == old(schedules)
      ensures form == old(form) && showModal == old(showModal) && editMode == old(editMode)
      ensures selected == old(selected) && filter == old(filter)
    {
      match reply
      case NoReply =>
      case Reply(ok, body) =>
        if ok {
          schedules := NormaliseAll(body);
        }
    }

    /** The "Add Schedule" button. */
    method OpenForAdd()
      requires Valid()
      modifies this
      ensures Valid() && showModal
      ensures schedules == old(schedules) && form == old(form) && editMode == old(editMode)
      ensures selected == old(selected) && filter == old(filter)
    {
      showModal := true;
    }

    /** handleEditSchedule: the seven fields copied as they are. */
    method Edit(s: Schedule)
      requires Valid()
      modifies this
      ensures Valid()
      ensures selected == Some(s) && editMode && showModal
      ensures form.startDate == s.startDate && form.endDate == s.endDate
      ensures form.classroom == s.classroom && form.startTime == s.startTime
      ensures form.endTime == s.endTime && form.unforeseenEvents == s.unforeseenEvents
      ensures form.dayOfWeek == s.dayOfWeek
      ensures schedules == old(schedules) && filter == old(filter)
    {
      selected := Some(s);
      form := EditForm(s);
      editMode := true;
      showModal := true;
    }

    /** resetForm */
    method ResetForm()
      requires Valid()
      modifies this
      ensures Valid()
      ensures form == BlankForm && !editMode && selected == None
      ensures schedules == old(schedules) && showModal == old(showModal) && filter == old(filter)
    {
      form := BlankForm;
      editMode := false;
      selected := None;
    }

    /** handleCloseModal */
    method CloseModal()
      requires Valid()
      modifies this
      ensures Valid()
      ensures !showModal && form == BlankForm && !editMode && selected == None
      ensures schedules == old(schedules) && filter == old(filter)
    {
      showModal := false;
      ResetForm();
    }

    /** handleFilterChange */
    method FilterChange(key: FilterKey, value: string)
      requires Valid()
      modifies this
      ensures Valid()
      ensures key == DayOfWeekKey ==> filter == old(filter).(dayOfWeek := value)
      ensures key == ClassroomKey ==> filter == old(filter).(classroom := value)
      ensures schedules == old(schedules) && form == old(form) && showModal == old(showModal)
      ensures editMode == old(editMode) && selected == old(selected)
    {
      match key
      case DayOfWeekKey => filter := filter.(dayOfWeek := value);
      case ClassroomKey => filter := filter.(classroom := value);
    }

    /** handleSaveSchedule: only an ok response refetches, closes and resets. */
    method Save(resp: Response, refetch: Reply<seq<Schedule>>) returns (req: Request)
      requires Valid()
      modifies this
      ensures Valid()
      ensures req == SaveTarget(ClassSchedulesUrl, old(EditingId()))
      ensures Proceeds(ChecksOk, resp) ==>
        && schedules == (if refetch.Reply? && refetch.ok then NormaliseAll(refetch.body) else old(schedules))
        && !showModal && form == BlankForm && !editMode && selected == None
        && filter == old(filter)
      ensures !Proceeds(ChecksOk, resp) ==> unchanged(this)
    {
      req := SaveTarget(ClassSchedulesUrl, EditingId());
      if Proceeds(ChecksOk, resp) {
        Fetch(refetch);
        showModal := false;
        ResetForm();
      }
    }

    /** handleDeleteSchedule: only an ok response refetches. */
    method Delete(id: Value, resp: Response, refetch: Reply<seq<Schedule>>) returns (req: Request)
      requires Valid()
      modifies this
      ensures Valid()
      ensures req == DeleteTarget(ClassSchedulesUrl, id)
      ensures schedules ==
        if Proceeds(ChecksOk, resp) && refetch.Reply? && refetch.ok then NormaliseAll(refetch.body) else old(schedules)
      ensures form == old(form) && showModal == old(showModal) && editMode == old(editMode)
      ensures selected == old(selected) && filter == old(filter)
    {
      req := DeleteTarget(ClassSchedulesUrl, id);
      if Proceeds(ChecksOk, resp) {
        Fetch(refetch);
      }
    }
  }
}
