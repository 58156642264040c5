/** The account page: search by username, and the account form, whose
    password field is required only when creating. */
module AdminUsersPage {
  import opened Domain
  import opened Seqs
  import opened Texts
  import opened PageState
  import UsersRoute

  predicate Matches(u: UserSummary, term: Text)
  {
    ContainsIgnoringCase(u.username, term)
  }

  function Keep(term: Text): UserSummary -> bool
  {
    (u: UserSummary) => Matches(u, term)
  }

  /** `filteredUsers`: the accounts whose username contains the term, in
      their original order; an empty term keeps every row. */
  function Filtered(us: seq<UserSummary>, term: Text): (r: seq<UserSummary>)
    ensures forall u :: u in r <==> u in us && Matches(u, term)
    ensures IsSubsequence(r, us)
    ensures term == "" ==> r == us
  {
    var r := Filter(us, Keep(term));
    assert forall u :: u in r <==> u in us && Matches(u, term) by {
      forall u ensures u in r <==> u in us && Matches(u, term) {
        FilterMembers(us, Keep(term), u);
        assert Keep(term)(u) == Matches(u, term);
      }
    }
    FilterIsSubsequence(us, Keep(term));
    EmptyTermKeepsAll(us);
    r
  }

  lemma EmptyTermKeepsAll(us: seq<UserSummary>)
    ensures Filter(us, Keep("")) == us
  {
    forall i | 0 <= i < |us| ensures Keep("")(us[i]) {
      EmptyTermMatches(us[i].username);
      assert Keep("")(us[i]) == Matches(us[i], "");
    }
    FilterKeepsAll(us, Keep(""));
  }

  /** `formData`; the role comes from a select with the two roles. */
  datatype UserForm = UserForm(username: Text, password: Text, role: Role)

  /** `resetForm`: empty username and password, role `admin`. */
  const EmptyForm: UserForm := UserForm("", "", Admin)

  /** What `openEditModal` copies into the form: username and role; the
      password field starts empty. */
  function EditForm(u: UserSummary): (f: UserForm)
    ensures f.username == u.username && f.role == u.role
    ensures f.password == ""
  {
    UserForm(u.username, "", u.role)
  }

  /** `required={!selectedUser}` on the password input. */
  predicate PasswordRequired(selected: Option<UserSummary>)
  {
    selected.None?
  }

  /** `handleSubmit`'s request: the form as the body, to the selected row if
      there is one. */
  function Submit(selected: Option<UserSummary>, form: UserForm): (r: Request<UsersRoute.UserBody>)
    ensures r.verb == Put <==> selected.Some?
    ensures selected.Some? ==> r.target == Item(selected.value.id)
    ensures r.body.username == form.username && r.body.password == form.password
    ensures ParseRole(r.body.role) == Some(form.role)
  {
    SubmitRequest(if selected.Some? then Some(selected.value.id) else None,
                  UsersRoute.UserBody(form.username, form.password, RoleName(form.role)))
  }

  /** A create form that passes the browser's `required` checks (the password
      is required because nothing is selected) passes the route's checks of
      required fields and role. */
  lemma CompleteCreateFormAccepted(form: UserForm)
    requires PasswordRequired(None) ==> form.password != ""
    requires form.username != ""
    ensures !UsersRoute.MissingRequired(Submit(None, form).body)
    ensures ParseRole(Submit(None, form).body.role).Some?
  {
  }

  /** An edit form asks for no password and starts with none: the update may
      leave the password empty. */
  lemma EditNeedsNoPassword(u: UserSummary)
    ensures !PasswordRequired(Some(u))
    ensures Submit(Some(u), EditForm(u)).body.password == ""
  {
  }

  /** The page with its form state. */
  method NewPage() returns (page: FormPage<UserSummary, UserForm>)
    ensures fresh(page)
    ensures page.empty == EmptyForm && page.edit == EditForm
    ensures page.form == EmptyForm && page.selected == None && !page.modalOpen
  {
    page := new FormPage(EmptyForm, EditForm);
  }
}
