/** What the five admin pages share: the request `handleSubmit` sends and the
    form state that `openCreateModal`, `openEditModal`, `resetForm` and a
    successful submit replace. */
module PageState {
  import opened Domain

  datatype Verb = Post | Put

  /** `/api/<table>` or `/api/<table>/{id}`. */
  datatype Target = Collection | Item(id: int)

  datatype Request<B> = Request(verb: Verb, target: Target, body: B)

  /** `selected ? PUT /api/<table>/{id} : POST /api/<table>`. */
  function SubmitRequest<B>(selectedId: Option<int>, body: B): (r: Request<B>)
    ensures r.verb == Put <==> selectedId.Some?
    ensures r.verb == Put <==> r.target.Item?
    ensures selectedId.Some? ==> r.target.id == selectedId.value
    ensures r.body == body
  {
    match selectedId
    case Some(id) => Request(Put, Item(id), body)
    case None => Request(Post, Collection, body)
  }

  /** The state of an admin page's form modal. `empty` is what `resetForm`
      writes and `edit` what `openEditModal` copies out of a row. */
  class FormPage<Row, Form> {
    const empty: Form
    const edit: Row -> Form
    var form: Form
    var selected: Option<Row>
    var modalOpen: bool

    /** The page as first rendered: the empty form, nothing selected, the
        modal closed. */
    constructor (empty: Form, edit: Row -> Form)
      ensures this.empty == empty && this.edit == edit
      ensures form == empty && selected == None && !modalOpen
    {
      this.empty := empty;
      this.edit := edit;
      form := empty;
      selected := None;
      modalOpen := false;
    }

    /** `resetForm`: only the form changes. */
    method ResetForm()
      modifies this
      ensures form == empty
      ensures selected == old(selected) && modalOpen == old(modalOpen)
    {
      form := empty;
    }

    /** `openCreateModal`: an empty form, no selection, so the submit is a `POST`. */
    method OpenCreateModal()
      modifies this
      ensures form == empty && selected == None && modalOpen
    {
      ResetForm();
      selected := None;
      modalOpen := true;
    }

    /** `openEditModal(row)`: the row's fields in the form and the row
        selected, so the submit is a `PUT` to that row. */
    method OpenEditModal(row: Row)
      modifies this
      ensures form == edit(row) && selected == Some(row) && modalOpen
    {
      selected := Some(row);
      form := edit(row);
      modalOpen := true;
    }

    /** The end of a `handleSubmit` whose response was ok: the modal closes
        and the form is reset; the selection is left as it was. */
    method SubmitSucceeded()
      modifies this
      ensures form == empty && !modalOpen
      ensures selected == old(selected)
    {
      modalOpen := false;
      ResetForm();
    }
  }
}
