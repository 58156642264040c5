/** The staff page: search, and the form behind "Tambah Guru" and the edit
    button. */
module AdminGuruPage {
  import opened Domain
  import opened Seqs
  import opened Texts
  import opened PageState
  import GuruRoute

  /** The search box test: name or NIP. */
  predicate Matches(g: Guru, term: Text)
  {
    ContainsIgnoringCase(g.nama, term) || ContainsIgnoringCase(g.nip, term)
  }

  function Keep(term: Text): Guru -> bool
  {
    (g: Guru) => Matches(g, term)
  }

  /** `filteredGuru`: the listed staff whose name or NIP contains the term,
      in their original order; an empty term keeps every row. */
  function Filtered(gs: seq<Guru>, term: Text): (r: seq<Guru>)
    ensures forall g :: g in r <==> g in gs && Matches(g, term)
    ensures IsSubsequence(r, gs)
    ensures term == "" ==> r == gs
  {
    var r := Filter(gs, Keep(term));
    assert forall g :: g in r <==> g in gs && Matches(g, term) by {
      forall g ensures g in r <==> g in gs && Matches(g, term) {
        FilterMembers(gs, Keep(term), g);
        assert Keep(term)(g) == Matches(g, term);
      }
    }
    FilterIsSubsequence(gs, Keep(term));
    EmptyTermKeepsAll(gs);
    r
  }

  lemma EmptyTermKeepsAll(gs: seq<Guru>)
    ensures Filter(gs, Keep("")) == gs
  {
    forall i | 0 <= i < |gs| ensures Keep("")(gs[i]) {
      EmptyTermMatches(gs[i].nama);
      assert Keep("")(gs[i]) == Matches(gs[i], "");
    }
    FilterKeepsAll(gs, Keep(""));
  }

  /** `formData`. */
  datatype GuruForm = GuruForm(nip: Text, nama: Text, noTelp: Text)

  /** `resetForm`: the three fields empty. */
  const EmptyForm: GuruForm := GuruForm("", "", "")

  /** What `openEditModal` copies into the form: NIP and name as they are, a
      stored phone number as it is and a null one as the empty text. */
  function EditForm(g: Guru): (f: GuruForm)
    ensures f.nip == g.nip && f.nama == g.nama
    ensures g.noTelp.Some? ==> f.noTelp == g.noTelp.value
    ensures f.noTelp == "" <==> g.noTelp.None? || g.noTelp == Some("")
  {
    GuruForm(g.nip, g.nama, if g.noTelp.Some? then g.noTelp.value else "")
  }

  /** `handleSubmit`'s request: the form as the body, to the selected row if
      there is one. */
  function Submit(selected: Option<Guru>, form: GuruForm): (r: Request<GuruRoute.GuruBody>)
    ensures r.verb == Put <==> selected.Some?
    ensures selected.Some? ==> r.target == Item(selected.value.id)
    ensures r.body.nip == form.nip && r.body.nama == form.nama && r.body.noTelp == form.noTelp
  {
    SubmitRequest(if selected.Some? then Some(selected.value.id) else None,
                  GuruRoute.GuruBody(form.nip, form.nama, form.noTelp))
  }

  /** Submitting an unchanged edit form sends a `PUT` to the staff member's
      row with the NIP, the name and the phone number shown in the form. */
  lemma EditFormRoundTrip(g: Guru)
    ensures Submit(Some(g), EditForm(g)) ==
      Request(Put, Item(g.id), GuruRoute.GuruBody(g.nip, g.nama, if g.noTelp.Some? then g.noTelp.value else ""))
  {
  }

  /** A reset form sent as a create is refused by the route. */
  lemma EmptyFormRefused()
    ensures GuruRoute.MissingRequired(Submit(None, EmptyForm).body)
  {
  }

  /** The page with its form state. */
  method NewPage() returns (page: FormPage<Guru, GuruForm>)
    ensures fresh(page)
    ensures page.empty == EmptyForm && page.edit == EditForm
    ensures page.form == EmptyForm && page.selected == None && !page.modalOpen
  {
    page := new FormPage(EmptyForm, EditForm);
  }
}
