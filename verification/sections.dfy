/** The sections screen: a list of sections filtered by class schedule and
    section number, and a modal form to add or edit one. None of its requests
    look at the response status. */
module Sections {
  import opened Js
  import opened Crud

  const SectionsUrl := "http://localhost:4000/api/sections"

  /** A row of the sections list. */
  datatype Section = Section(
    idSection: Value, idClassSchedules: Value, numSection: Value, createdAt: Value, updatedAt: Value)

  /** The two inputs of the section modal. */
  datatype SectionForm = SectionForm(idClassSchedules: Value, numSection: Value)

  const BlankForm := SectionForm(Str(""), Str(""))

  datatype SectionFilter = SectionFilter(idClassSchedules: string, numSection: string)

  datatype FilterKey = IdClassSchedulesKey | NumSectionKey

  /** The callback of `filteredSections`: the texts of the schedule id and of the
      section number contain their filters; the number is only read when the
      schedule matched. */
  function Shows(s: Section, f: SectionFilter): (r: Eval<bool>)
    ensures r.Throws? <==>
      Nullish(s.idClassSchedules)
        || (Includes(Interpolate(s.idClassSchedules), f.idClassSchedules) && Nullish(s.numSection))
    ensures r == Returns(true) <==>
      !Nullish(s.idClassSchedules) && Includes(Interpolate(s.idClassSchedules), f.idClassSchedules)
        && !Nullish(s.numSection) && Includes(Interpolate(s.numSection), f.numSection)
  {
    var schedule :- ToText(s.idClassSchedules);
    if !Includes(schedule, f.idClassSchedules) then Returns(false)
    else
      var num :- ToText(s.numSection);
      Returns(Includes(num, f.numSection))
  }

  function FilteredSections(sections: seq<Section>, f: SectionFilter): (r: Eval<seq<Section>>)
    ensures r.Returns? <==> forall i :: 0 <= i < |sections| ==> Shows(sections[i], f).Returns?
    ensures r.Returns? ==> Subsequence(r.value, sections)
    ensures r.Returns? ==> forall s :: s in r.value <==> s in sections && Shows(s, f) == Returns(true)
    ensures r.Returns? ==> forall s :: multiset(r.value)[s] == if Shows(s, f) == Returns(true) then multiset(sections)[s] else 0
  {
    Keep(sections, s => Shows(s, f))
  }

  /** The filter throws exactly when some section has a missing schedule id, or
      a matching schedule id and a missing number. */
  lemma FilteredSectionsThrows(sections: seq<Section>, f: SectionFilter)
    ensures FilteredSections(sections, f).Throws? <==>
      exists s :: s in sections &&
        (Nullish(s.idClassSchedules) ||
         (Includes(Interpolate(s.idClassSchedules), f.idClassSchedules) && Nullish(s.numSection)))
  {
  }

  /** A section is shown iff the texts of its schedule id and number contain
      their filters. */
  lemma SectionShownIff(sections: seq<Section>, f: SectionFilter, s: Section)
    requires FilteredSections(sections, f).Returns?
    ensures Subsequence(FilteredSections(sections, f).value, sections)
    ensures s in FilteredSections(sections, f).value <==>
      && s in sections
      && !Nullish(s.idClassSchedules) && Includes(Interpolate(s.idClassSchedules), f.idClassSchedules)
      && !Nullish(s.numSection) && Includes(Interpolate(s.numSection), f.numSection)
  {
  }

  /** With both filters empty every section is shown, in order, as long as
      none has a missing schedule id or number. */
  lemma UnfilteredShowsAll(sections: seq<Section>)
    requires forall i :: 0 <= i < |sections| ==>
      !Nullish(sections[i].idClassSchedules) && !Nullish(sections[i].numSection)
    ensures FilteredSections(sections, SectionFilter("", "")) == Returns(sections)
  {
    var f := SectionFilter("", "");
    forall i | 0 <= i < |sections|
      ensures Shows(sections[i], f) == Returns(true)
    {
      IncludesEmpty(Interpolate(sections[i].idClassSchedules));
      IncludesEmpty(Interpolate(sections[i].numSection));
    }
    KeepAll(sections, s => Shows(s, f));
  }

  /** A numeric section number is matched through its decimal spelling: the
      filter "1" finds section 12 and section 21. */
  lemma NumberMatchedByDigits(sections: seq<Section>, f: SectionFilter, s: Section, n: nat)
    requires FilteredSections(sections, f).Returns?
    requires s in sections && s.numSection == Num(n) && !Nullish(s.idClassSchedules)
    requires Includes(Interpolate(s.idClassSchedules), f.idClassSchedules)
    ensures s in FilteredSections(sections, f).value <==> Includes(NatToString(n), f.numSection)
  {
  }

  /** The component's state. */
  class SectionsScreen {
    var sections: seq<Section>
    var form: SectionForm
    var showModal: bool
    var editMode: bool
    var selected: Option<Section>
    var filter: SectionFilter

    /** In edit mode a section is selected. */
    ghost predicate Valid()
      reads this
    {
      editMode ==> selected.Some?
    }

    function EditingId(): Option<Value>
      reads this
      requires Valid()
    {
      if editMode then Some(selected.value.idSection) else None
    }

    function Visible(): Eval<seq<Section>>
      reads this
    {
      FilteredSections(sections, filter)
    }

    constructor ()
      ensures Valid()
      ensures sections == [] && form == BlankForm && !showModal && !editMode
      ensures selected == None && filter == SectionFilter("", "")
    {
      sections := [];
      form := BlankForm;
      showModal := false;
      editMode := false;
      selected := None;
      filter := SectionFilter("", "");
    }

    /** fetchSections: the list becomes the reply's body, whatever its status. */
    method Fetch(reply: Reply<seq<Section>>)
      requires Valid()
      modifies this
      ensures Valid()
      ensures sections == Refreshed(old(sections), reply, IgnoresStatus)
      ensures form == old(form) && showModal == old(showModal) && editMode == old(editMode)
      ensures selected == old(selected) && filter == old(filter)
    {
      sections := Refreshed(sections, reply, IgnoresStatus);
    }

    /** The "Add Section" button. */
    method OpenForAdd()
      requires Valid()
      modifies this
      ensures Valid() && showModal
      ensures sections == old(sections) && form == old(form) && editMode == old(editMode)
      ensures selected == old(selected) && filter == old(filter)
    {
      showModal := true;
    }

    /** handleEditSection: both fields copied as they are. */
    method Edit(s: Section)
      requires Valid()
      modifies this
      ensures Valid()
      ensures selected == Some(s) && editMode && showModal
      ensures form.idClassSchedules == s.idClassSchedules && form.numSection == s.numSection
      ensures sections == old(sections) && filter == old(filter)
    {
      selected := Some(s);
      form := SectionForm(s.idClassSchedules, s.numSection);
      editMode := true;
      showModal := true;
    }

    /** resetForm */
    method ResetForm()
      requires Valid()
      modifies this
      ensures Valid()
      ensures form == BlankForm && !editMode && selected == None
      ensures sections == old(sections) && showModal == old(showModal) && filter == old(filter)
    {
      form := BlankForm;
      editMode := false;
      selected := None;
    }

    /** handleCloseModal */
    method CloseModal()
      requires Valid()
      modifies this
      ensures Valid()
      ensures !showModal && form == BlankForm && !editMode && selected == None
      ensures sections == old(sections) && filter == old(filter)
    {
      showModal := false;
      ResetForm();
    }

    /** handleFilterChange */
    method FilterChange(key: FilterKey, value: string)
      requires Valid()
      modifies this
      ensures Valid()
      ensures key == IdClassSchedulesKey ==> filter == old(filter).(idClassSchedules := value)
      ensures key == NumSectionKey ==> filter == old(filter).(numSection := value)
      ensures sections == old(sections) && form == old(form) && showModal == old(showModal)
      ensures editMode == old(editMode) && selected == old(selected)
    {
      match key
      case IdClassSchedulesKey => filter := filter.(idClassSchedules := value);
      case NumSectionKey => filter := filter.(numSection := value);
    }

    /** handleSaveSection: any HTTP response, even a rejection, refetches,
        closes the modal and resets the form. */
    method Save(resp: Response, refetch: Reply<seq<Section>>) returns (req: Request)
      requires Valid()
      modifies this
      ensures Valid()
      ensures req == SaveTarget(SectionsUrl, old(EditingId()))
      ensures Proceeds(IgnoresStatus, resp) ==>
        && sections == Refreshed(old(sections), refetch, IgnoresStatus)
        && !showModal && form == BlankForm && !editMode && selected == None
        && filter == old(filter)
      ensures !Proceeds(IgnoresStatus, resp) ==> unchanged(this)
    {
      req := SaveTarget(SectionsUrl, EditingId());
      if Proceeds(IgnoresStatus, resp) {
        Fetch(refetch);
        showModal := false;
        ResetForm();
      }
    }

    /** handleDeleteSection: any HTTP response refetches. */
    method Delete(id: Value, resp: Response, refetch: Reply<seq<Section>>) returns (req: Request)
      requires Valid()
      modifies this
      ensures Valid()
      ensures req == DeleteTarget(SectionsUrl, id)
      ensures sections == if Proceeds(IgnoresStatus, resp) then Refreshed(old(sections), refetch, IgnoresStatus) else old(sections)
      ensures form == old(form) && showModal == old(showModal) && editMode == old(editMode)
      ensures selected == old(selected) && filter == old(filter)
    {
      req := DeleteTarget(SectionsUrl, id);
      if Proceeds(IgnoresStatus, resp) {
        Fetch(refetch);
      }
    }
  }
}
