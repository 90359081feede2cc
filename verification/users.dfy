/** The users screen: a list of user accounts, a filter on first name and email
    and a modal form to add or edit an account. */
module Users {
  import opened Js
  import opened Crud

  const UsersUrl := "http://localhost:4000/api/users"

  /** A row of the users list. */
  datatype User = User(
    uidUsers: Value, idRols: Value, firstName: Value, lastName: Value, dni: Value,
    numberTlf: Value, email: Value, dateOfBirth: Value, gender: Value, status: Value)

  /** The ten inputs of the user modal. */
  datatype UserForm = UserForm(
    idRols: Value, firstName: Value, lastName: Value, dni: Value, numberTlf: Value,
    email: Value, password: Value, dateOfBirth: Value, gender: Value, status: Value)

  /** Every input blank except the status, which starts as 'active'. */
  const BlankForm := UserForm(
    Str(""), Str(""), Str(""), Str(""), Str(""),
    Str(""), Str(""), Str(""), Str(""), Str("active"))

  datatype UserFilter = UserFilter(firstName: string, email: string)

  datatype FilterKey = FirstNameKey | EmailKey

  /** The form handleEditUser fills in from an account: the password is always
      cleared, the date of birth is cut at 'T' ('' when absent) and a falsy status
      becomes 'active'. It throws when the date of birth is truthy but not a string. */
  function EditForm(u: User): (r: Eval<UserForm>)
    ensures r.Throws? <==> Truthy(u.dateOfBirth) && !u.dateOfBirth.Str?
    ensures r.Returns? ==>
      var f := r.value;
      && f.idRols == u.idRols && f.firstName == u.firstName && f.lastName == u.lastName
      && f.dni == u.dni && f.numberTlf == u.numberTlf && f.email == u.email && f.gender == u.gender
      && f.password == Str("")
      && f.dateOfBirth.Str? && 'T' !in f.dateOfBirth.s
      && (Truthy(u.dateOfBirth) ==> IsPrefix(f.dateOfBirth.s, u.dateOfBirth.s))
      && (Truthy(u.dateOfBirth) && |f.dateOfBirth.s| < |u.dateOfBirth.s| ==> u.dateOfBirth.s[|f.dateOfBirth.s|] == 'T')
      && (!Truthy(u.dateOfBirth) ==> f.dateOfBirth == Str(""))
      && Truthy(f.status)
      && (Truthy(u.status) ==> f.status == u.status)
      && (!Truthy(u.status) ==> f.status == Str("active"))
  {
    var dob :- (if Truthy(u.dateOfBirth) then SplitHead(u.dateOfBirth, 'T') else Returns(""));
    Returns(UserForm(
      u.idRols, u.firstName, u.lastName, u.dni, u.numberTlf, u.email,
      Str(""), Str(dob), u.gender, Or(u.status, Str("active"))))
  }

  /** The callback of `filteredUsers`. */
  function Shows(u: User, f: UserFilter): (r: Eval<bool>)
    ensures r.Throws? <==>
      (Truthy(u.firstName) && !u.firstName.Str?)
        || (u.firstName.Str? && u.firstName.s != "" && Includes(Lower(u.firstName.s), Lower(f.firstName))
            && Truthy(u.email) && !u.email.Str?)
    ensures r == Returns(true) <==>
      u.firstName.Str? && u.firstName.s != "" && Includes(Lower(u.firstName.s), Lower(f.firstName))
        && u.email.Str? && u.email.s != "" && Includes(Lower(u.email.s), Lower(f.email))
  {
    var byName :- MatchesIgnoringCase(u.firstName, f.firstName);
    if !byName then Returns(false) else MatchesIgnoringCase(u.email, f.email)
  }

  function FilteredUsers(users: seq<User>, f: UserFilter): (r: Eval<seq<User>>)
    ensures r.Returns? <==> forall i :: 0 <= i < |users| ==> Shows(users[i], f).Returns?
    ensures r.Returns? ==> Subsequence(r.value, users)
    ensures r.Returns? ==> forall u :: u in r.value <==> u in users && Shows(u, f) == Returns(true)
    ensures r.Returns? ==> forall u :: multiset(r.value)[u] == if Shows(u, f) == Returns(true) then multiset(users)[u] else 0
  {
    Keep(users, u => Shows(u, f))
  }

  /** The filter expression throws exactly when some account has a truthy
      non-string first name, or a matching first name and a truthy non-string email. */
  lemma FilteredUsersThrows(users: seq<User>, f: UserFilter)
    ensures FilteredUsers(users, f).Throws? <==>
      exists u :: u in users &&
        ((Truthy(u.firstName) && !u.firstName.Str?)
         || (u.firstName.Str? && u.firstName.s != "" && Includes(Lower(u.firstName.s), Lower(f.firstName))
             && Truthy(u.email) && !u.email.Str?))
  {
  }

  /** An account is shown iff its first name and email are non-empty strings that
      contain their filters ignoring case; shown rows keep their order. */
  lemma UserShownIff(users: seq<User>, f: UserFilter, u: User)
    requires FilteredUsers(users, f).Returns?
    ensures Subsequence(FilteredUsers(users, f).value, users)
    ensures u in FilteredUsers(users, f).value <==>
      && u in users
      && u.firstName.Str? && u.firstName.s != "" && Includes(Lower(u.firstName.s), Lower(f.firstName))
      && u.email.Str? && u.email.s != "" && Includes(Lower(u.email.s), Lower(f.email))
  {
  }

  /** The accounts a user select still offers once the ids in `taken` are in
      use (`users.filter(u => !taken.includes(u.uid_users))`): exactly the
      accounts whose id is not strictly equal to a taken one, in their order. */
  function Unassigned(taken: seq<Value>, users: seq<User>): (r: seq<User>)
    ensures Subsequence(r, users)
    ensures forall u :: u in r <==> u in users && u.uidUsers !in taken
    ensures forall u :: multiset(r)[u] == if u.uidUsers !in taken then multiset(users)[u] else 0
  {
    Select(users, (u: User) => u.uidUsers !in taken)
  }

  /** `records.map(x => x.uid_users)`: the account ids a list of records points
      at, one per record, in order; an id is listed iff some record has it. */
  function AssignedIds<R>(records: seq<R>, uid: R -> Value): (ids: seq<Value>)
    ensures |ids| == |records|
    ensures forall i :: 0 <= i < |records| ==> ids[i] == uid(records[i])
    ensures forall v :: v in ids <==> exists i :: 0 <= i < |records| && uid(records[i]) == v
  {
    if records == [] then [] else [uid(records[0])] + AssignedIds(records[1..], uid)
  }

  /** No record points at the account id `id`. */
  predicate Free<R>(records: seq<R>, uid: R -> Value, id: Value) {
    forall i :: 0 <= i < |records| ==> uid(records[i]) != id
  }

  /** One more record frees no id: an id stays free iff it was free and the new
      record does not point at it. */
  lemma FreeSnoc<R>(records: seq<R>, uid: R -> Value, x: R, id: Value)
    ensures Free(records + [x], uid, id) <==> Free(records, uid, id) && uid(x) != id
  {
    var all := records + [x];
    assert all[|records|] == x;
    assert forall i :: 0 <= i < |records| ==> all[i] == records[i];
  }

  /** getAvailableUsers of a screen whose records each point at an account: the
      fetched accounts no record points at, in their order. In particular the
      account of the record being edited is never offered. */
  function Available<R>(records: seq<R>, uid: R -> Value, users: seq<User>): (r: seq<User>)
    ensures Subsequence(r, users)
    ensures forall u :: u in r <==> u in users && Free(records, uid, u.uidUsers)
    ensures forall u :: multiset(r)[u] == if Free(records, uid, u.uidUsers) then multiset(users)[u] else 0
  {
    var taken := AssignedIds(records, uid);
    Unassigned(taken, users)
  }

  /** The component's state. */
  class UsersScreen {
    var users: seq<User>
    var form: UserForm
    var showModal: bool
    var editMode: bool
    var selected: Option<User>
    var filter: UserFilter

    /** In edit mode an account is selected. */
    ghost predicate Valid()
      reads this
    {
      editMode ==> selected.Some?
    }

    function EditingId(): Option<Value>
      reads this
      requires Valid()
    {
      if editMode then Some(selected.value.uidUsers) else None
    }

    function Visible(): Eval<seq<User>>
      reads this
    {
      FilteredUsers(users, filter)
    }

    constructor ()
      ensures Valid()
      ensures users == [] && form == BlankForm && !showModal && !editMode
      ensures selected == None && filter == UserFilter("", "")
    {
      users := [];
      form := BlankForm;
      showModal := false;
      editMode := false;
      selected := None;
      filter := UserFilter("", "");
    }

    /** fetchUsers: the list becomes the reply's body, whatever its status. */
    method Fetch(reply: Reply<seq<User>>)
      requires Valid()
      modifies this
      ensures Valid()
      ensures users == Refreshed(old(users), reply, IgnoresStatus)
      ensures form == old(form) && showModal == old(showModal) && editMode == old(editMode)
      ensures selected == old(selected) && filter == old(filter)
    {
      users := Refreshed(users, reply, IgnoresStatus);
    }

    /** The "Add User" button. */
    method OpenForAdd()
      requires Valid()
      modifies this
      ensures Valid() && showModal
      ensures users == old(users) && form == old(form) && editMode == old(editMode)
      ensures selected == old(selected) && filter == old(filter)
    {
      showModal := true;
    }

    /** handleEditUser: selects the account, then fills the form, enters edit mode
        and opens the modal; when building the form throws, only the selection
        has changed. */
    method Edit(u: User)
      requires Valid()
      modifies this
      ensures Valid()
      ensures selected == Some(u)
      ensures EditForm(u).Returns? ==> form == EditForm(u).value && editMode && showModal
      ensures EditForm(u).Throws? ==> form == old(form) && editMode == old(editMode) && showModal == old(showModal)
      ensures users == old(users) && filter == old(filter)
    {
      selected := Some(u);
      var r := EditForm(u);
      if r.Returns? {
        form := r.value;
        editMode := true;
        showModal := true;
      }
    }

    /** resetForm: every input blank but the status 'active', out of edit mode,
        nothing selected. */
    method ResetForm()
      requires Valid()
      modifies this
      ensures Valid()
      ensures form == BlankForm && !editMode && selected == None
      ensures users == old(users) && showModal == old(showModal) && filter == old(filter)
    {
      form := BlankForm;
      editMode := false;
      selected := None;
    }

    /** The modal's close and cancel buttons. */
    method CloseModal()
      requires Valid()
      modifies this
      ensures Valid()
      ensures !showModal && form == BlankForm && !editMode && selected == None
      ensures users == old(users) && filter == old(filter)
    {
      showModal := false;
      ResetForm();
    }

    /** handleFilterChange: the named key takes the value; the other keeps its own. */
    method FilterChange(key: FilterKey, value: string)
      requires Valid()
      modifies this
      ensures Valid()
      ensures key == FirstNameKey ==> filter == old(filter).(firstName := value)
      ensures key == EmailKey ==> filter == old(filter).(email := value)
      ensures users == old(users) && form == old(form) && showModal == old(showModal)
      ensures editMode == old(editMode) && selected == old(selected)
    {
      match key
      case FirstNameKey => filter := filter.(firstName := value);
      case EmailKey => filter := filter.(email := value);
    }

    /** handleSaveUser: PUT or POST the form; a non-ok response throws before
        anything closes, an ok one refetches, closes the modal and resets. */
    method Save(resp: Response, refetch: Reply<seq<User>>) returns (req: Request)
      requires Valid()
      modifies this
      ensures Valid()
      ensures req == SaveTarget(UsersUrl, old(EditingId()))
      ensures Proceeds(ChecksOk, resp) ==>
        && users == Refreshed(old(users), refetch, IgnoresStatus)
        && !showModal && form == BlankForm && !editMode && selected == None
        && filter == old(filter)
      ensures !Proceeds(ChecksOk, resp) ==> unchanged(this)
    {
      req := SaveTarget(UsersUrl, EditingId());
      if Proceeds(ChecksOk, resp) {
        Fetch(refetch);
        showModal := false;
        ResetForm();
      }
    }

    /** handleDeleteUser: DELETE `/users/<id>`; the list changes only through the
        refetch that follows an ok response. */
    method Delete(id: Value, resp: Response, refetch: Reply<seq<User>>) returns (req: Request)
      requires Valid()
      modifies this
      ensures Valid()
      ensures req == DeleteTarget(UsersUrl, id)
      ensures users == if Proceeds(ChecksOk, resp) then Refreshed(old(users), refetch, IgnoresStatus) else old(users)
      ensures form == old(form) && showModal == old(showModal) && editMode == old(editMode)
      ensures selected == old(selected) && filter == old(filter)
    {
      req := DeleteTarget(UsersUrl, id);
      if Proceeds(ChecksOk, resp) {
        Fetch(refetch);
      }
    }
  }
}
