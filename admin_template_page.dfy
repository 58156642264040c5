/** The letter template page: search by name, and the template form. */
module AdminTemplatePage {
  import opened Domain
  import opened Seqs
  import opened Texts
  import opened PageState
  import TemplateRoute

  /** The search box looks at the name only. */
  predicate Matches(t: Template, term: Text)
  {
    ContainsIgnoringCase(t.nama, term)
  }

  function Keep(term: Text): Template -> bool
  {
    (t: Template) => Matches(t, term)
  }

  /** `filteredTemplates`: the templates whose name contains the term, in
      their original order; an empty term keeps every row. */
  function Filtered(ts: seq<Template>, term: Text): (r: seq<Template>)
    ensures forall t :: t in r <==> t in ts && Matches(t, term)
    ensures IsSubsequence(r, ts)
    ensures term == "" ==> r == ts
  {
    var r := Filter(ts, Keep(term));
    assert forall t :: t in r <==> t in ts && Matches(t, term) by {
      forall t ensures t in r <==> t in ts && Matches(t, term) {
        FilterMembers(ts, Keep(term), t);
        assert Keep(term)(t) == Matches(t, term);
      }
    }
    FilterIsSubsequence(ts, Keep(term));
    EmptyTermKeepsAll(ts);
    r
  }

  lemma EmptyTermKeepsAll(ts: seq<Template>)
    ensures Filter(ts, Keep("")) == ts
  {
    forall i | 0 <= i < |ts| ensures Keep("")(ts[i]) {
      EmptyTermMatches(ts[i].nama);
      assert Keep("")(ts[i]) == Matches(ts[i], "");
    }
    FilterKeepsAll(ts, Keep(""));
  }

  /** The body of a template plays no part in the search: a term that occurs
      only in the body finds nothing. */
  lemma BodyIgnored(t: Template, isi: Text, term: Text)
    ensures Matches(t, term) == Matches(t.(isi := isi), term)
    ensures !ContainsIgnoringCase(t.nama, term) ==> t !in Filtered([t], term)
  {
  }

  /** `formData`. */
  datatype TemplateForm = TemplateForm(nama: Text, isi: Text)

  /** `resetForm`: both fields empty. */
  const EmptyForm: TemplateForm := TemplateForm("", "")

  /** What `openEditModal` copies into the form. */
  function EditForm(t: Template): (f: TemplateForm)
    ensures f.nama == t.nama && f.isi == t.isi
  {
    TemplateForm(t.nama, t.isi)
  }

  /** `handleSubmit`'s request: the form as the body, to the selected row if
      there is one. */
  function Submit(selected: Option<Template>, form: TemplateForm): (r: Request<TemplateRoute.TemplateBody>)
    ensures r.verb == Put <==> selected.Some?
    ensures selected.Some? ==> r.target == Item(selected.value.id)
    ensures r.body.nama == form.nama && r.body.isi == form.isi
  {
    SubmitRequest(if selected.Some? then Some(selected.value.id) else None,
                  TemplateRoute.TemplateBody(form.nama, form.isi))
  }

  /** Submitting an unchanged edit form sends a `PUT` to the template's row
      with its own name and body. */
  lemma EditFormRoundTrip(t: Template)
    ensures Submit(Some(t), EditForm(t)) == Request(Put, Item(t.id), TemplateRoute.TemplateBody(t.nama, t.isi))
  {
  }

  /** A reset form sent as a create is refused by the route. */
  lemma EmptyFormRefused()
    ensures TemplateRoute.MissingRequired(Submit(None, EmptyForm).body)
  {
  }

  /** The page with its form state. */
  method NewPage() returns (page: FormPage<Template, TemplateForm>)
    ensures fresh(page)
    ensures page.empty == EmptyForm && page.edit == EditForm
    ensures page.form == EmptyForm && page.selected == None && !page.modalOpen
  {
    page := new FormPage(EmptyForm, EditForm);
  }
}
