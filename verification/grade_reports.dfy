/** The newsletters screen (the grade reports view): a list of newsletters
    filtered by title and status, and a modal form whose user select offers only
    the users no newsletter is assigned to yet. None of its requests look at the
    response status. */
module GradeReports {
  import opened Js
  import opened Crud
  import Users

  const NewslettersUrl := "http://localhost:4000/api/newsletters"
  const UsersUrl := "http://localhost:4000/api/users"

  /** A row of the newsletters list. */
  datatype Newsletter = Newsletter(
    idNewsletters: Value, uidUsers: Value, title: Value, content: Value,
    dateSent: Value, newsletterStatus: Value, recipients: Value)

  /** The six inputs of the newsletter modal. */
  datatype NewsletterForm = NewsletterForm(
    uidUsers: Value, title: Value, content: Value, dateSent: Value,
    newsletterStatus: Value, recipients: Value)

  const BlankForm := NewsletterForm(Str(""), Str(""), Str(""), Str(""), Str(""), Str(""))

  datatype NewsletterFilter = NewsletterFilter(title: string, newsletterStatus: string)

  datatype FilterKey = TitleKey | NewsletterStatusKey

  /** `row` with the columns of form `f` written over it; its id and the
      columns the form does not hold stay as they were. */
  function Updated(row: Newsletter, f: NewsletterForm): Newsletter {
    row.(
      uidUsers := f.uidUsers, title := f.title, content := f.content, dateSent := f.dateSent,
      newsletterStatus := f.newsletterStatus, recipients := f.recipients)
  }

  function EditForm(n: Newsletter): (r: NewsletterForm)
    ensures Updated(n, r) == n
  {
    NewsletterForm(n.uidUsers, n.title, n.content, n.dateSent, n.newsletterStatus, n.recipients)
  }

  /** The user a newsletter is assigned to. */
  function NewsletterUser(n: Newsletter): Value {
    n.uidUsers
  }

  /** The callback of `filteredNewsletters`: the title contains the title filter
      ignoring case (a title that is not a string throws), and the status filter
      is 'All Statuses' or strictly equals the status. */
  function Shows(n: Newsletter, f: NewsletterFilter): (r: Eval<bool>)
    ensures r.Throws? <==>
      !n.title.Str?
    ensures r == Returns(true) <==>
      n.title.Str? && Includes(Lower(n.title.s), Lower(f.title))
        && (f.newsletterStatus == "" || n.newsletterStatus == Str(f.newsletterStatus))
  {
    var title :- ToLowerCase(n.title);
    Returns(Includes(title, Lower(f.title)) && (f.newsletterStatus == "" || n.newsletterStatus == Str(f.newsletterStatus)))
  }

  function FilteredNewsletters(newsletters: seq<Newsletter>, f: NewsletterFilter): (r: Eval<seq<Newsletter>>)
    ensures r.Returns? <==> forall i :: 0 <= i < |newsletters| ==> Shows(newsletters[i], f).Returns?
    ensures r.Returns? ==> Subsequence(r.value, newsletters)
    ensures r.Returns? ==> forall n :: n in r.value <==> n in newsletters && Shows(n, f) == Returns(true)
    ensures r.Returns? ==> forall n :: multiset(r.value)[n] == if Shows(n, f) == Returns(true) then multiset(newsletters)[n] else 0
  {
    Keep(newsletters, n => Shows(n, f))
  }

  /** The filter throws exactly when some title is not a string, whatever the
      filters say. */
  lemma FilteredNewslettersThrows(newsletters: seq<Newsletter>, f: NewsletterFilter)
    ensures FilteredNewsletters(newsletters, f).Throws? <==> exists n :: n in newsletters && !n.title.Str?
  {
  }

  /** A newsletter is shown iff its title contains the title filter ignoring case
      and the status filter is empty or names exactly its status. */
  lemma NewsletterShownIff(newsletters: seq<Newsletter>, f: NewsletterFilter, n: Newsletter)
    requires FilteredNewsletters(newsletters, f).Returns?
    ensures Subsequence(FilteredNewsletters(newsletters, f).value, newsletters)
    ensures n in FilteredNewsletters(newsletters, f).value <==>
      && n in newsletters
      && n.title.Str? && Includes(Lower(n.title.s), Lower(f.title))
      && (f.newsletterStatus == "" || n.newsletterStatus == Str(f.newsletterStatus))
  {
  }

  /** With the title filter empty and 'All Statuses' chosen, every newsletter is
      shown as long as every title is a string. */
  lemma UnfilteredShowsAll(newsletters: seq<Newsletter>)
    requires forall i :: 0 <= i < |newsletters| ==> newsletters[i].title.Str?
    ensures FilteredNewsletters(newsletters, NewsletterFilter("", "")) == Returns(newsletters)
  {
    var f := NewsletterFilter("", "");
    forall i | 0 <= i < |newsletters|
      ensures Shows(newsletters[i], f) == Returns(true)
    {
      IncludesEmpty(Lower(newsletters[i].title.s));
    }
    KeepAll(newsletters, n => Shows(n, f));
  }

  /** The component's state. */
  class GradeReportsScreen {
    var newsletters: seq<Newsletter>
    var users: seq<Users.User>
    var form: NewsletterForm
    var showModal: bool
    var editMode: bool
    var selected: Option<Newsletter>
    var filter: NewsletterFilter

    /** In edit mode a newsletter is selected. */
    ghost predicate Valid()
      reads this
    {
      editMode ==> selected.Some?
    }

    function EditingId(): Option<Value>
      reads this
      requires Valid()
    {
      if editMode then Some(selected.value.idNewsletters) else None
    }

    function Visible(): Eval<seq<Newsletter>>
      reads this
    {
      FilteredNewsletters(newsletters, filter)
    }

    /** getAvailableUsers, the options of the modal's user select: the fetched
        users no newsletter is assigned to yet, in order. */
    function Offered(): (r: seq<Users.User>)
      reads this
      ensures Subsequence(r, users)
      ensures forall u :: u in r <==> u in users && forall n :: n in newsletters ==> n.uidUsers != u.uidUsers
      ensures forall u ::
                multiset(r)[u] == if forall n :: n in newsletters ==> n.uidUsers != u.uidUsers then multiset(users)[u] else 0
    {
      var r := Users.Available(newsletters, NewsletterUser, users);
      assert forall v :: Users.Free(newsletters, NewsletterUser, v) <==> forall n :: n in newsletters ==> n.uidUsers != v;
      r
    }

    constructor ()
      ensures Valid()
      ensures newsletters == [] && users == [] && form == BlankForm && !showModal && !editMode
      ensures selected == None && filter == NewsletterFilter("", "")
    {
      newsletters := [];
      users := [];
      form := BlankForm;
      showModal := false;
      editMode := false;
      selected := None;
      filter := NewsletterFilter("", "");
    }

    /** fetchNewsletters: the list becomes the reply's body, whatever its status. */
    method FetchNewsletters(reply: Reply<seq<Newsletter>>)
      requires Valid()
      modifies this
      ensures Valid()
      ensures newsletters == Refreshed(old(newsletters), reply, IgnoresStatus)
      ensures users == old(users) && form == old(form) && showModal == old(showModal)
      ensures editMode == old(editMode) && selected == old(selected) && filter == old(filter)
    {
      newsletters := Refreshed(newsletters, reply, IgnoresStatus);
    }

    /** fetchUsers: the user list becomes the reply's body, whatever its status. */
    method FetchUsers(reply: Reply<seq<Users.User>>)
      requires Valid()
      modifies this
      ensures Valid()
      ensures users == Refreshed(old(users), reply, IgnoresStatus)
      ensures newsletters == old(newsletters) && form == old(form) && showModal == old(showModal)
      ensures editMode == old(editMode) && selected == old(selected) && filter == old(filter)
    {
      users := Refreshed(users, reply, IgnoresStatus);
    }

    /** The "Add Newsletter" button. */
    method OpenForAdd()
      requires Valid()
      modifies this
      ensures Valid() && showModal
      ensures newsletters == old(newsletters) && users == old(users) && form == old(form)
      ensures editMode == old(editMode) && selected == old(selected) && filter == old(filter)
    {
      showModal := true;
    }

    /** handleEditNewsletter: the six fields copied as they are. */
    method Edit(n: Newsletter)
      requires Valid()
      modifies this
      ensures Valid()
      ensures selected == Some(n) && editMode && showModal
      ensures form.uidUsers == n.uidUsers && form.title == n.title && form.content == n.content
      ensures form.dateSent == n.dateSent && form.newsletterStatus == n.newsletterStatus
      ensures form.recipients == n.recipients
      ensures newsletters == old(newsletters) && users == old(users) && filter == old(filter)
    {
      selected := Some(n);
      form := EditForm(n);
      editMode := true;
      showModal := true;
    }

    /** resetForm */
    method ResetForm()
      requires Valid()
      modifies this
      ensures Valid()
      ensures form == BlankForm && !editMode && selected == None
      ensures newsletters == old(newsletters) && users == old(users)
      ensures showModal == old(showModal) && filter == old(filter)
    {
      form := BlankForm;
      editMode := false;
      selected := None;
    }

    /** handleCloseModal */
    method CloseModal()
      requires Valid()
      modifies this
      ensures Valid()
      ensures !showModal && form == BlankForm && !editMode && selected == None
      ensures newsletters == old(newsletters) && users == old(users) && filter == old(filter)
    {
      showModal := false;
      ResetForm();
    }

    /** handleFilterChange */
    method FilterChange(key: FilterKey, value: string)
      requires Valid()
      modifies this
      ensures Valid()
      ensures key == TitleKey ==> filter == old(filter).(title := value)
      ensures key == NewsletterStatusKey ==> filter == old(filter).(newsletterStatus := value)
      ensures newsletters == old(newsletters) && users == old(users) && form == old(form)
      ensures showModal == old(showModal) && editMode == old(editMode) && selected == old(selected)
    {
      match key
      case TitleKey => filter := filter.(title := value);
      case NewsletterStatusKey => filter := filter.(newsletterStatus := value);
    }

    /** handleSaveNewsletter: any HTTP response, even a rejection, refetches,
        closes the modal and resets the form; only a network failure keeps all. */
    method Save(resp: Response, refetch: Reply<seq<Newsletter>>) returns (req: Request)
      requires Valid()
      modifies this
      ensures Valid()
      ensures req == SaveTarget(NewslettersUrl, old(EditingId()))
      ensures Proceeds(IgnoresStatus, resp) ==>
        && newsletters == Refreshed(old(newsletters), refetch, IgnoresStatus)
        && !showModal && form == BlankForm && !editMode && selected == None
        && users == old(users) && filter == old(filter)
      ensures !Proceeds(IgnoresStatus, resp) ==> unchanged(this)
    {
      req := SaveTarget(NewslettersUrl, EditingId());
      if Proceeds(IgnoresStatus, resp) {
        FetchNewsletters(refetch);
        showModal := false;
        ResetForm();
      }
    }

    /** handleDeleteNewsletter: any HTTP response refetches. */
    method Delete(id: Value, resp: Response, refetch: Reply<seq<Newsletter>>) returns (req: Request)
      requires Valid()
      modifies this
      ensures Valid()
      ensures req == DeleteTarget(NewslettersUrl, id)
      ensures newsletters ==
        if Proceeds(IgnoresStatus, resp) then Refreshed(old(newsletters), refetch, IgnoresStatus) else old(newsletters)
      ensures users == old(users) && form == old(form) && showModal == old(showModal)
      ensures editMode == old(editMode) && selected == old(selected) && filter == old(filter)
    {
      req := DeleteTarget(NewslettersUrl, id);
      if Proceeds(IgnoresStatus, resp) {
        FetchNewsletters(refetch);
      }
    }
  }
}
