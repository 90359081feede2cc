/** The tutors screen: a list of tutors (each a user account promoted to
    tutor), a filter on the user id, and a modal whose user select offers only
    the accounts that are not tutors yet. None of its requests look at the
    response status. */
module Tutors {
  import opened Js
  import opened Crud
  import Users

  const TutorsUrl := "http://localhost:4000/api/tutors"
  const UsersUrl := "http://localhost:4000/api/users"

  /** A row of the tutors list. */
  datatype Tutor = Tutor(idTutor: Value, uidUsers: Value, createdAt: Value, updatedAt: Value)

  /** The one input of the tutor modal. */
  datatype TutorForm = TutorForm(uidUsers: Value)

  const BlankForm := TutorForm(Str(""))

  datatype TutorFilter = TutorFilter(uidUsers: string)

  /** The account a tutor row points at. */
  function TutorUser(t: Tutor): Value {
    t.uidUsers
  }

  /** Adding a tutor for an offered account removes exactly that account (and
      any other account with the same id) from the options. */
  lemma NewTutorTakesItsUser(tutors: seq<Tutor>, users: seq<Users.User>, t: Tutor, u: Users.User)
    ensures u in Users.Available(tutors + [t], TutorUser, users) <==>
      u in Users.Available(tutors, TutorUser, users) && u.uidUsers != t.uidUsers
  {
    Users.FreeSnoc(tutors, TutorUser, t, u.uidUsers);
  }

  /** The callback of `filteredTutors`: a truthy user id whose text contains the
      filter. It never throws: the truthiness test guards `toString`. */
  function Shows(t: Tutor, f: TutorFilter): (r: bool)
    ensures r <==> Truthy(t.uidUsers) && Includes(Interpolate(t.uidUsers), f.uidUsers)
  {
    Truthy(t.uidUsers) &&
      match ToText(t.uidUsers)
      case Throws => false
      case Returns(text) => Includes(text, f.uidUsers)
  }

  function FilteredTutors(tutors: seq<Tutor>, f: TutorFilter): (r: seq<Tutor>)
    ensures Subsequence(r, tutors)
    ensures forall t :: t in r <==> t in tutors && Shows(t, f)
    ensures forall t :: multiset(r)[t] == if Shows(t, f) then multiset(tutors)[t] else 0
  {
    Select(tutors, t => Shows(t, f))
  }

  /** A tutor is shown iff its user id is truthy and its text contains the
      filter; with an empty filter, exactly the tutors with a truthy user id. */
  lemma TutorShownIff(tutors: seq<Tutor>, f: TutorFilter, t: Tutor)
    ensures Subsequence(FilteredTutors(tutors, f), tutors)
    ensures t in FilteredTutors(tutors, f) <==>
      t in tutors && Truthy(t.uidUsers) && Includes(Interpolate(t.uidUsers), f.uidUsers)
    ensures f.uidUsers == "" ==> (t in FilteredTutors(tutors, f) <==> t in tutors && Truthy(t.uidUsers))
  {
    IncludesEmpty(Interpolate(t.uidUsers));
  }

  /** The component's state. */
  class TutorsScreen {
    var tutors: seq<Tutor>
    var users: seq<Users.User>
    var form: TutorForm
    var showModal: bool
    var editMode: bool
    var selected: Option<Tutor>
    var filter: TutorFilter

    /** In edit mode a tutor is selected. */
    ghost predicate Valid()
      reads this
    {
      editMode ==> selected.Some?
    }

    function EditingId(): Option<Value>
      reads this
      requires Valid()
    {
      if editMode then Some(selected.value.idTutor) else None
    }

    function Visible(): seq<Tutor>
      reads this
    {
      FilteredTutors(tutors, filter)
    }

    /** getAvailableUsers, the options of the modal's user select: the fetched
        accounts no tutor has yet, in order. */
    function Offered(): (r: seq<Users.User>)
      reads this
      ensures Subsequence(r, users)
      ensures forall u :: u in r <==> u in users && forall t :: t in tutors ==> t.uidUsers != u.uidUsers
      ensures forall u ::
                multiset(r)[u] == if forall t :: t in tutors ==> t.uidUsers != u.uidUsers then multiset(users)[u] else 0
    {
      var r := Users.Available(tutors, TutorUser, users);
      assert forall v :: Users.Free(tutors, TutorUser, v) <==> forall t :: t in tutors ==> t.uidUsers != v;
      r
    }

    constructor ()
      ensures Valid()
      ensures tutors == [] && users == [] && form == BlankForm && !showModal && !editMode
      ensures selected == None && filter == TutorFilter("")
    {
      tutors := [];
      users := [];
      form := BlankForm;
      showModal := false;
      editMode := false;
      selected := None;
      filter := TutorFilter("");
    }

    /** fetchTutors: the list becomes the reply's body, whatever its status. */
    method FetchTutors(reply: Reply<seq<Tutor>>)
      requires Valid()
      modifies this
      ensures Valid()
      ensures tutors == Refreshed(old(tutors), reply, IgnoresStatus)
      ensures users == old(users) && form == old(form) && showModal == old(showModal)
      ensures editMode == old(editMode) && selected == old(selected) && filter == old(filter)
    {
      tutors := Refreshed(tutors, reply, IgnoresStatus);
    }

    /** fetchUsers: the account list becomes the reply's body, whatever its status. */
    method FetchUsers(reply: Reply<seq<Users.User>>)
      requires Valid()
      modifies this
      ensures Valid()
      ensures users == Refreshed(old(users), reply, IgnoresStatus)
      ensures tutors == old(tutors) && form == old(form) && showModal == old(showModal)
      ensures editMode == old(editMode) && selected == old(selected) && filter == old(filter)
    {
      users := Refreshed(users, reply, IgnoresStatus);
    }

    /** The "Add Tutor" button. */
    method OpenForAdd()
      requires Valid()
      modifies this
      ensures Valid() && showModal
      ensures tutors == old(tutors) && users == old(users) && form == old(form)
      ensures editMode == old(editMode) && selected == old(selected) && filter == old(filter)
    {
      showModal := true;
    }

    /** handleEditTutor: the user id copied into the form. */
    method Edit(t: Tutor)
      requires Valid()
      modifies this
      ensures Valid()
      ensures selected == Some(t) && editMode && showModal && form.uidUsers == t.uidUsers
      ensures tutors == old(tutors) && users == old(users) && filter == old(filter)
    {
      selected := Some(t);
      form := TutorForm(t.uidUsers);
      editMode := true;
      showModal := true;
    }

    /** resetForm */
    method ResetForm()
      requires Valid()
      modifies this
      ensures Valid()
      ensures form == BlankForm && !editMode && selected == None
      ensures tutors == old(tutors) && users == old(users)
      ensures showModal == old(showModal) && filter == old(filter)
    {
      form := BlankForm;
      editMode := false;
      selected := None;
    }

    /** handleCloseModal */
    method CloseModal()
      requires Valid()
      modifies this
      ensures Valid()
      ensures !showModal && form == BlankForm && !editMode && selected == None
      ensures tutors == old(tutors) && users == old(users) && filter == old(filter)
    {
      showModal := false;
      ResetForm();
    }

    /** handleFilterChange: the one filter key takes the input's value. */
    method FilterChange(value: string)
      requires Valid()
      modifies this
      ensures Valid()
      ensures filter == TutorFilter(value)
      ensures tutors == old(tutors) && users == old(users) && form == old(form)
      ensures showModal == old(showModal) && editMode == old(editMode) && selected == old(selected)
    {
      filter := filter.(uidUsers := value);
    }

    /** handleSaveTutor: any HTTP response, even a rejection, refetches the
        tutors, closes the modal and resets the form. */
    method Save(resp: Response, refetch: Reply<seq<Tutor>>) returns (req: Request)
      requires Valid()
      modifies this
      ensures Valid()
      ensures req == SaveTarget(TutorsUrl, old(EditingId()))
      ensures Proceeds(IgnoresStatus, resp) ==>
        && tutors == Refreshed(old(tutors), refetch, IgnoresStatus)
        && !showModal && form == BlankForm && !editMode && selected == None
        && users == old(users) && filter == old(filter)
      ensures !Proceeds(IgnoresStatus, resp) ==> unchanged(this)
    {
      req := SaveTarget(TutorsUrl, EditingId());
      if Proceeds(IgnoresStatus, resp) {
        FetchTutors(refetch);
        showModal := false;
        ResetForm();
      }
    }

    /** handleDeleteTutor: any HTTP response refetches the tutors. */
    method Delete(id: Value, resp: Response, refetch: Reply<seq<Tutor>>) returns (req: Request)
      requires Valid()
      modifies this
      ensures Valid()
      ensures req == DeleteTarget(TutorsUrl, id)
      ensures tutors == if Proceeds(IgnoresStatus, resp) then Refreshed(old(tutors), refetch, IgnoresStatus) else old(tutors)
      ensures users == old(users) && form == old(form) && showModal == old(showModal)
      ensures editMode == old(editMode) && selected == old(selected) && filter == old(filter)
    {
      req := DeleteTarget(TutorsUrl, id);
      if Proceeds(IgnoresStatus, resp) {
        FetchTutors(refetch);
      }
    }
  }
}
