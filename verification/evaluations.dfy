/** The evaluations screen: a list of evaluations filtered by student id and
    subject id, and a modal form to add or edit one. */
module Evaluations {
  import opened Js
  import opened Crud

  const EvaluationsUrl := "http://localhost:4000/api/evaluations"

  /** A row of the evaluations list. */
  datatype Evaluation = Evaluation(
    idEvaluations: Value, idStudent: Value, idSubject: Value, idClassSchedules: Value,
    totalRating: Value, dateEvaluation: Value, score: Value, maxScore: Value,
    remarks: Value, evaluationType: Value)

  /** The nine inputs of the evaluation modal. */
  datatype EvaluationForm = EvaluationForm(
    idStudent: Value, idSubject: Value, idClassSchedules: Value, totalRating: Value,
    dateEvaluation: Value, score: Value, maxScore: Value, remarks: Value, evaluationType: Value)

  const BlankForm := EvaluationForm(
    Str(""), Str(""), Str(""), Str(""), Str(""), Str(""), Str(""), Str(""), Str(""))

  datatype EvaluationFilter = EvaluationFilter(idStudent: string, idSubject: string)

  datatype FilterKey = IdStudentKey | IdSubjectKey

  /** `row` with the columns of form `f` written over it; its id and the
      columns the form does not hold stay as they were. */
  function Updated(row: Evaluation, f: EvaluationForm): Evaluation {
    row.(
      idStudent := f.idStudent, idSubject := f.idSubject, idClassSchedules := f.idClassSchedules,
      totalRating := f.totalRating, dateEvaluation := f.dateEvaluation, score := f.score,
      maxScore := f.maxScore, remarks := f.remarks, evaluationType := f.evaluationType)
  }

  /** The form handleEditEvaluation fills in: the nine fields as they are, the
      date included (no truncation). */
  function EditForm(e: Evaluation): (r: EvaluationForm)
    ensures Updated(e, r) == e
  {
    EvaluationForm(
      e.idStudent, e.idSubject, e.idClassSchedules, e.totalRating, e.dateEvaluation,
      e.score, e.maxScore, e.remarks, e.evaluationType)
  }

  /** The callback of `filteredEvaluations`: both ids' texts contain their
      filters, case-sensitively. The subject id is only looked at when the
      student id matched. */
  function Shows(e: Evaluation, f: EvaluationFilter): (r: Eval<bool>)
    ensures r.Throws? <==>
      Nullish(e.idStudent) || (Includes(Interpolate(e.idStudent), f.idStudent) && Nullish(e.idSubject))
    ensures r == Returns(true) <==>
      !Nullish(e.idStudent) && Includes(Interpolate(e.idStudent), f.idStudent)
        && !Nullish(e.idSubject) && Includes(Interpolate(e.idSubject), f.idSubject)
  {
    var student :- ToText(e.idStudent);
    if !Includes(student, f.idStudent) then Returns(false)
    else
      var subject :- ToText(e.idSubject);
      Returns(Includes(subject, f.idSubject))
  }

  function FilteredEvaluations(evaluations: seq<Evaluation>, f: EvaluationFilter): (r: Eval<seq<Evaluation>>)
    ensures r.Returns? <==> forall i :: 0 <= i < |evaluations| ==> Shows(evaluations[i], f).Returns?
    ensures r.Returns? ==> Subsequence(r.value, evaluations)
    ensures r.Returns? ==> forall e :: e in r.value <==> e in evaluations && Shows(e, f) == Returns(true)
    ensures r.Returns? ==> forall e :: multiset(r.value)[e] == if Shows(e, f) == Returns(true) then multiset(evaluations)[e] else 0
  {
    Keep(evaluations, e => Shows(e, f))
  }

  /** The filter expression throws exactly when some evaluation has a missing
      student id, or a matching student id and a missing subject id. */
  lemma FilteredEvaluationsThrows(evaluations: seq<Evaluation>, f: EvaluationFilter)
    ensures FilteredEvaluations(evaluations, f).Throws? <==>
      exists e :: e in evaluations &&
        (Nullish(e.idStudent) || (Includes(Interpolate(e.idStudent), f.idStudent) && Nullish(e.idSubject)))
  {
  }

  /** An evaluation is shown iff the text of its student id contains the student
      filter and the text of its subject id contains the subject filter. */
  lemma EvaluationShownIff(evaluations: seq<Evaluation>, f: EvaluationFilter, e: Evaluation)
    requires FilteredEvaluations(evaluations, f).Returns?
    ensures Subsequence(FilteredEvaluations(evaluations, f).value, evaluations)
    ensures e in FilteredEvaluations(evaluations, f).value <==>
      && e in evaluations
      && !Nullish(e.idStudent) && Includes(Interpolate(e.idStudent), f.idStudent)
      && !Nullish(e.idSubject) && Includes(Interpolate(e.idSubject), f.idSubject)
  {
  }

  /** With empty filters every evaluation is shown, in its original order, as
      long as no id is null or undefined. */
  lemma UnfilteredShowsAll(evaluations: seq<Evaluation>)
    requires forall i :: 0 <= i < |evaluations| ==>
      !Nullish(evaluations[i].idStudent) && !Nullish(evaluations[i].idSubject)
    ensures FilteredEvaluations(evaluations, EvaluationFilter("", "")) == Returns(evaluations)
  {
    var f := EvaluationFilter("", "");
    forall i | 0 <= i < |evaluations|
      ensures Shows(evaluations[i], f) == Returns(true)
    {
      IncludesEmpty(Interpolate(evaluations[i].idStudent));
      IncludesEmpty(Interpolate(evaluations[i].idSubject));
    }
    KeepAll(evaluations, e => Shows(e, f));
  }

  /** The component's state. */
  class EvaluationsScreen {
    var evaluations: seq<Evaluation>
    var form: EvaluationForm
    var showModal: bool
    var editMode: bool
    var selected: Option<Evaluation>
    var filter: EvaluationFilter

    /** In edit mode an evaluation is selected. */
    ghost predicate Valid()
      reads this
    {
      editMode ==> selected.Some?
    }

    function EditingId(): Option<Value>
      reads this
      requires Valid()
    {
      if editMode then Some(selected.value.idEvaluations) else None
    }

    function Visible(): Eval<seq<Evaluation>>
      reads this
    {
      FilteredEvaluations(evaluations, filter)
    }

    constructor ()
      ensures Valid()
      ensures evaluations == [] && form == BlankForm && !showModal && !editMode
      ensures selected == None && filter == EvaluationFilter("", "")
    {
      evaluations := [];
      form := BlankForm;
      showModal := false;
      editMode := false;
      selected := None;
      filter := EvaluationFilter("", "");
    }

    /** fetchEvaluations: the list becomes the reply's body, whatever its status. */
    method Fetch(reply: Reply<seq<Evaluation>>)
      requires Valid()
      modifies this
      ensures Valid()
      ensures evaluations == Refreshed(old(evaluations), reply, IgnoresStatus)
      ensures form == old(form) && showModal == old(showModal) && editMode == old(editMode)
      ensures selected == old(selected) && filter == old(filter)
    {
      evaluations := Refreshed(evaluations, reply, IgnoresStatus);
    }

    /** The "Add Evaluation" button. */
    method OpenForAdd()
      requires Valid()
      modifies this
      ensures Valid() && showModal
      ensures evaluations == old(evaluations) && form == old(form) && editMode == old(editMode)
      ensures selected == old(selected) && filter == old(filter)
    {
      showModal := true;
    }

    /** handleEditEvaluation: the nine fields copied as they are, edit mode on,
        the modal open. */
    method Edit(e: Evaluation)
      requires Valid()
      modifies this
      ensures Valid()
      ensures selected == Some(e) && editMode && showModal
      ensures form.idStudent == e.idStudent && form.idSubject == e.idSubject
      ensures form.idClassSchedules == e.idClassSchedules && form.totalRating == e.totalRating
      ensures form.dateEvaluation == e.dateEvaluation && form.score == e.score
      ensures form.maxScore == e.maxScore && form.remarks == e.remarks
      ensures form.evaluationType == e.evaluationType
      ensures evaluations == old(evaluations) && filter == old(filter)
    {
      selected := Some(e);
      form := EditForm(e);
      editMode := true;
      showModal := true;
    }

    /** resetForm: the nine fields blank, out of edit mode, nothing selected. */
    method ResetForm()
      requires Valid()
      modifies this
      ensures Valid()
      ensures form == BlankForm && !editMode && selected == None
      ensures evaluations == old(evaluations) && showModal == old(showModal) && filter == old(filter)
    {
      form := BlankForm;
      editMode := false;
      selected := None;
    }

    /** handleCloseModal: the modal hidden and the form reset. */
    method CloseModal()
      requires Valid()
      modifies this
      ensures Valid()
      ensures !showModal && form == BlankForm && !editMode && selected == None
      ensures evaluations == old(evaluations) && filter == old(filter)
    {
      showModal := false;
      ResetForm();
    }

    /** handleFilterChange: the named key takes the value; the other keeps its own. */
    method FilterChange(key: FilterKey, value: string)
      requires Valid()
      modifies this
      ensures Valid()
      ensures key == IdStudentKey ==> filter == old(filter).(idStudent := value)
      ensures key == IdSubjectKey ==> filter == old(filter).(idSubject := value)
      ensures evaluations == old(evaluations) && form == old(form) && showModal == old(showModal)
      ensures editMode == old(editMode) && selected == old(selected)
    {
      match key
      case IdStudentKey => filter := filter.(idStudent := value);
      case IdSubjectKey => filter := filter.(idSubject := value);
    }

    /** handleSaveEvaluation: PUT or POST the form; a non-ok response throws
        before the modal closes, an ok one refetches, closes and resets. */
    method Save(resp: Response, refetch: Reply<seq<Evaluation>>) returns (req: Request)
      requires Valid()
      modifies this
      ensures Valid()
      ensures req == SaveTarget(EvaluationsUrl, old(EditingId()))
      ensures Proceeds(ChecksOk, resp) ==>
        && evaluations == Refreshed(old(evaluations), refetch, IgnoresStatus)
        && !showModal && form == BlankForm && !editMode && selected == None
        && filter == old(filter)
      ensures !Proceeds(ChecksOk, resp) ==> unchanged(this)
    {
      req := SaveTarget(EvaluationsUrl, EditingId());
      if Proceeds(ChecksOk, resp) {
        Fetch(refetch);
        CloseModal();
      }
    }

    /** handleDeleteEvaluation: DELETE the record; only an ok response refetches. */
    method Delete(id: Value, resp: Response, refetch: Reply<seq<Evaluation>>) returns (req: Request)
      requires Valid()
      modifies this
      ensures Valid()
      ensures req == DeleteTarget(EvaluationsUrl, id)
      ensures evaluations == if Proceeds(ChecksOk, resp) then Refreshed(old(evaluations), refetch, IgnoresStatus) else old(evaluations)
      ensures form == old(form) && showModal == old(showModal) && editMode == old(editMode)
      ensures selected == old(selected) && filter == old(filter)
    {
      req := DeleteTarget(EvaluationsUrl, id);
      if Proceeds(ChecksOk, resp) {
        Fetch(refetch);
      }
    }
  }
}
