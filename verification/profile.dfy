/** The profile screen: the signed-in user's own account, loaded into a form,
    saved with a PUT and deletable after a confirmation. Its successful
    requests update the account list of the parent component through
    `setUsers`. */
module Profile {
  import opened Js
  import opened Crud

  const PlaceholderPic := "https://via.placeholder.com/150"

  /** An entry of the parent's account list, and the `updatedUser` object a
      save puts into it. */
  datatype Account = Account(
    id: Value, firstName: Value, lastName: Value, dni: Value, numberTlf: Value,
    email: Value, password: Value, dateOfBirth: Value, gender: Value, profilePic: Value)

  /** The account as the load reads it from the server. */
  datatype Loaded = Loaded(
    firstName: Value, lastName: Value, dni: Value, numberTlf: Value, email: Value,
    dateOfBirth: Value, gender: Value, profilePic: Value)

  /** The eight inputs of the profile form, one state variable each. */
  datatype ProfileForm = ProfileForm(
    firstName: Value, lastName: Value, dni: Value, numberTlf: Value, email: Value,
    password: Value, dateOfBirth: Value, gender: Value)

  const BlankForm := ProfileForm(Str(""), Str(""), Str(""), Str(""), Str(""), Str(""), Str(""), Str(""))

  /** The guard of handleSubmit: the seven required inputs are truthy. The
      password is not among them. */
  predicate Complete(f: ProfileForm): (r: bool)
    ensures r <==> forall v :: v in [f.firstName, f.lastName, f.dni, f.numberTlf, f.email, f.dateOfBirth, f.gender] ==>
      v != Undefined && v != Null && v != Str("") && v != Num(0)
  {
    var required := [f.firstName, f.lastName, f.dni, f.numberTlf, f.email, f.dateOfBirth, f.gender];
    assert f.firstName in required && f.lastName in required && f.dni in required
      && f.numberTlf in required && f.email in required && f.dateOfBirth in required
      && f.gender in required;
    Truthy(f.firstName) && Truthy(f.lastName) && Truthy(f.dni) && Truthy(f.numberTlf)
    && Truthy(f.email) && Truthy(f.dateOfBirth) && Truthy(f.gender)
  }

  /** An empty password never blocks a submit, and a filled one never unblocks it. */
  lemma PasswordNotRequired(f: ProfileForm, password: Value)
    ensures Complete(f.(password := password)) <==> Complete(f)
  {
  }

  /** `updatedUser`: the current user's id and every input under its own key. */
  function UpdatedUser(id: Value, f: ProfileForm, pic: Value): (u: Account)
    ensures u.id == id && u.profilePic == pic
    ensures u.firstName == f.firstName && u.lastName == f.lastName && u.dni == f.dni
    ensures u.numberTlf == f.numberTlf && u.email == f.email && u.password == f.password
    ensures u.dateOfBirth == f.dateOfBirth && u.gender == f.gender
  {
    Account(id, f.firstName, f.lastName, f.dni, f.numberTlf, f.email, f.password, f.dateOfBirth, f.gender, pic)
  }

  /** `prevUsers.map(user => user.id === id ? updated : user)` */
  function ReplaceById(users: seq<Account>, id: Value, updated: Account): (r: seq<Account>)
    ensures |r| == |users|
    ensures forall i :: 0 <= i < |users| ==> r[i] == if users[i].id == id then updated else users[i]
  {
    if users == [] then [] else
      [if users[0].id == id then updated else users[0]] + ReplaceById(users[1..], id, updated)
  }

  /** `prevUsers.filter(user => user.id !== id)` */
  function RemoveById(users: seq<Account>, id: Value): (r: seq<Account>)
    ensures Subsequence(r, users)
    ensures forall u :: u in r <==> u in users && u.id != id
    ensures forall u :: multiset(r)[u] == if u.id != id then multiset(users)[u] else 0
  {
    Select(users, (u: Account) => u.id != id)
  }

  /** After a replace, no entry with the id is left but the updated one, and an
      account whose id was in the list is in it afterwards. */
  lemma ReplaceByIdContents(users: seq<Account>, id: Value, updated: Account)
    ensures forall u :: u in ReplaceById(users, id, updated) && u.id == id ==> u == updated
    ensures (exists i :: 0 <= i < |users| && users[i].id == id) ==> updated in ReplaceById(users, id, updated)
    ensures forall u :: u in users && u.id != id ==> u in ReplaceById(users, id, updated)
  {
    var r := ReplaceById(users, id, updated);
    forall u | u in r && u.id == id
      ensures u == updated
    {
      var i :| 0 <= i < |r| && r[i] == u;
    }
    forall u | u in users && u.id != id
      ensures u in r
    {
      var i :| 0 <= i < |users| && users[i] == u;
      assert r[i] == u;
    }
    if exists i :: 0 <= i < |users| && users[i].id == id {
      var i :| 0 <= i < |users| && users[i].id == id;
      assert r[i] == updated;
    }
  }

  /** Replacing and then removing the same id removes exactly what removing
      alone would: the two updaters agree on every other entry. */
  lemma {:induction false} RemoveAfterReplace(users: seq<Account>, id: Value, updated: Account)
    requires updated.id == id
    ensures RemoveById(ReplaceById(users, id, updated), id) == RemoveById(users, id)
  {
    if users != [] {
      RemoveAfterReplace(users[1..], id, updated);
      var r := ReplaceById(users, id, updated);
      assert r == [r[0]] + ReplaceById(users[1..], id, updated);
      assert users == [users[0]] + users[1..];
      RemoveByIdCons(r[0], ReplaceById(users[1..], id, updated), id);
      RemoveByIdCons(users[0], users[1..], id);
    }
  }

  /** The remove-by-id filter, one entry at a time. */
  lemma RemoveByIdCons(u: Account, rest: seq<Account>, id: Value)
    ensures RemoveById([u] + rest, id) == if u.id == id then RemoveById(rest, id) else [u] + RemoveById(rest, id)
  {
    assert ([u] + rest)[1..] == rest;
  }

  /** The component's state: its form, its picture and modal flag, and the
      parent's account list that `setUsers` updates. `linked` says whether the
      parent passed `setUsers` at all; when it did not, calling it throws
      inside the promise chain and the `catch` swallows the error. */
  class ProfileScreen {
    const usersUrl: string
    const linked: bool
    var form: ProfileForm
    var profilePic: Value
    var showModal: bool
    var users: seq<Account>

    /** `${API_URL}/users`, where API_URL comes from the app configuration. */
    constructor (apiUrl: string, linked: bool, accounts: seq<Account>)
      ensures usersUrl == apiUrl + "/users" && this.linked == linked
      ensures form == BlankForm && profilePic == Str(PlaceholderPic) && !showModal && users == accounts
    {
      usersUrl := apiUrl + "/users";
      this.linked := linked;
      form := BlankForm;
      profilePic := Str(PlaceholderPic);
      showModal := false;
      users := accounts;
    }

    /** The load effect: with a signed-in user (`current` is its id), GET its
        account; an ok reply fills the seven inputs (the password is left as
        it is) and the picture, which falls back to the placeholder when the
        loaded one is falsy. A failed or non-ok reply changes nothing. */
    method Load(current: Option<Value>, reply: Reply<Loaded>) returns (req: Option<Request>)
      modifies this
      ensures req == if current.Some? then Some(Request(Get, ItemUrl(usersUrl, current.value))) else None
      ensures current.Some? && reply.Reply? && reply.ok ==>
        var d := reply.body;
        && form == old(form).(firstName := d.firstName, lastName := d.lastName, dni := d.dni,
                              numberTlf := d.numberTlf, email := d.email,
                              dateOfBirth := d.dateOfBirth, gender := d.gender)
        && Truthy(profilePic)
        && profilePic == (if Truthy(d.profilePic) then d.profilePic else Str(PlaceholderPic))
        && showModal == old(showModal) && users == old(users)
      ensures !(current.Some? && reply.Reply? && reply.ok) ==> unchanged(this)
    {
      if current.None? {
        return None;
      }
      req := Some(Request(Get, ItemUrl(usersUrl, current.value)));
      if reply.Reply? && reply.ok {
        var d := reply.body;
        form := form.(firstName := d.firstName, lastName := d.lastName, dni := d.dni,
                      numberTlf := d.numberTlf, email := d.email,
                      dateOfBirth := d.dateOfBirth, gender := d.gender);
        profilePic := Or(d.profilePic, Str(PlaceholderPic));
      }
    }

    /** handleSubmit: an incomplete form (the alert) sends nothing; with no
        signed-in user reading its id throws, so nothing is sent either.
        Otherwise the updated account is PUT to its URL, and only an ok reply
        with a JSON body replaces the entries with its id and closes the modal
        (when `setUsers` is missing, the call throws before the modal closes). */
    method Submit(current: Option<Value>, resp: Reply<Value>) returns (req: Option<Request>, sent: Option<Account>)
      modifies this
      ensures req.Some? <==> Complete(old(form)) && current.Some?
      ensures req.Some? ==> req.value == Request(Put, ItemUrl(usersUrl, current.value))
      ensures sent == if req.Some? then Some(UpdatedUser(current.value, old(form), old(profilePic))) else None
      ensures req.Some? && resp.Reply? && resp.ok && linked ==>
        && users == ReplaceById(old(users), current.value, sent.value)
        && !showModal && form == old(form) && profilePic == old(profilePic)
      ensures !(req.Some? && resp.Reply? && resp.ok && linked) ==> unchanged(this)
    {
      if !Complete(form) || current.None? {
        return None, None;
      }
      var updated := UpdatedUser(current.value, form, profilePic);
      req, sent := Some(Request(Put, ItemUrl(usersUrl, current.value))), Some(updated);
      if resp.Reply? && resp.ok && linked {
        users := ReplaceById(users, current.value, updated);
        showModal := false;
      }
    }

    /** handleDelete: nothing unless the confirmation is accepted; then the
        DELETE goes to the current user's URL, and only an ok reply with a JSON
        body removes every entry with that id from the list (nothing changes
        when `setUsers` is missing). */
    method Delete(current: Option<Value>, confirmed: bool, resp: Reply<Value>) returns (req: Option<Request>)
      modifies this
      ensures req.Some? <==> confirmed && current.Some?
      ensures req.Some? ==> req.value == DeleteTarget(usersUrl, current.value)
      ensures req.Some? && resp.Reply? && resp.ok && linked ==>
        && users == RemoveById(old(users), current.value)
        && form == old(form) && profilePic == old(profilePic) && showModal == old(showModal)
      ensures !(req.Some? && resp.Reply? && resp.ok && linked) ==> unchanged(this)
    {
      if !confirmed || current.None? {
        return None;
      }
      req := Some(DeleteTarget(usersUrl, current.value));
      if resp.Reply? && resp.ok && linked {
        users := RemoveById(users, current.value);
      }
    }

    /** handleCloseModal */
    method CloseModal()
      modifies this
      ensures !showModal
      ensures form == old(form) && profilePic == old(profilePic) && users == old(users)
    {
      showModal := false;
    }
  }
}
