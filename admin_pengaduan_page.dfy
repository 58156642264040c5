/** The admin complaint page: search with a status filter, and the complaint
    form, whose rejection reason is sent only for a rejected complaint. */
module AdminPengaduanPage {
  import opened Domain
  import opened Seqs
  import opened Texts
  import opened Decimal
  import opened PageState
  import Db
  import PengaduanRoute

  type Row = PengaduanRoute.PengaduanRow

  /** The siswa's or the guru's name contains the term, and the status filter
      is off or equal to the complaint's status. */
  predicate Matches(p: Row, term: Text, status: Text)
  {
    (ContainsIgnoringCase(p.siswa.nama, term) || ContainsIgnoringCase(p.guru.nama, term))
    && (status == "" || StatusName(p.record.status) == status)
  }

  function Keep(term: Text, status: Text): Row -> bool
  {
    (p: Row) => Matches(p, term, status)
  }

  /** `filteredPengaduan`, in the original order; with an empty term and no
      status filter every row is kept. */
  function Filtered(ps: seq<Row>, term: Text, status: Text): (r: seq<Row>)
    ensures forall p :: p in r <==> p in ps && Matches(p, term, status)
    ensures IsSubsequence(r, ps)
    ensures term == "" && status == "" ==> r == ps
  {
    var r := Filter(ps, Keep(term, status));
    assert forall p :: p in r <==> p in ps && Matches(p, term, status) by {
      forall p ensures p in r <==> p in ps && Matches(p, term, status) {
        FilterMembers(ps, Keep(term, status), p);
        assert Keep(term, status)(p) == Matches(p, term, status);
      }
    }
    FilterIsSubsequence(ps, Keep(term, status));
    NoFilterKeepsAll(ps);
    r
  }

  lemma NoFilterKeepsAll(ps: seq<Row>)
    ensures Filter(ps, Keep("", "")) == ps
  {
    forall i | 0 <= i < |ps| ensures Keep("", "")(ps[i]) {
      EmptyTermMatches(ps[i].siswa.nama);
      assert Keep("", "")(ps[i]) == Matches(ps[i], "", "");
    }
    FilterKeepsAll(ps, Keep("", ""));
  }

  /** `formData`: the ids are the values of the guru and siswa `<select>`s,
      as text; the status comes from a select with the four statuses. */
  datatype PengaduanForm = PengaduanForm(
    deskripsi: Text,
    idGuru: Text,
    idSiswa: Text,
    status: Status,
    alasan: Text)

  /** `resetForm`: status `Menunggu`, every other field empty. */
  const EmptyForm: PengaduanForm := PengaduanForm("", "", "", Menunggu, "")

  /** What `openEditModal` copies into the form: description and status as
      they are, the ids as decimal text, a null reason as the empty text. */
  function EditForm(p: Row): (f: PengaduanForm)
    ensures f.deskripsi == p.record.deskripsi && f.status == p.record.status
    ensures ParseInt(f.idGuru) == Some(p.guru.id) && ParseInt(f.idSiswa) == Some(p.siswa.id)
    ensures f.alasan == "" <==> p.record.alasanPenolakan.None? || p.record.alasanPenolakan == Some("")
    ensures p.record.alasanPenolakan.Some? ==> f.alasan == p.record.alasanPenolakan.value
  {
    IntTextRoundTrip(p.guru.id);
    IntTextRoundTrip(p.siswa.id);
    PengaduanForm(
      p.record.deskripsi,
      IntText(p.guru.id),
      IntText(p.siswa.id),
      p.record.status,
      if p.record.alasanPenolakan.Some? then p.record.alasanPenolakan.value else "")
  }

  /** The body `handleSubmit` sends: the form with the ids parsed, and the
      reason only when the status is `Ditolak` (null, here "", otherwise). */
  function Payload(form: PengaduanForm): (b: PengaduanRoute.PengaduanBody)
    ensures form.status == Ditolak ==> b.alasan == form.alasan
    ensures form.status != Ditolak ==> b.alasan == ""
    ensures PengaduanRoute.StatusOrDefault(b.status) == Some(form.status)
    ensures b.deskripsi == form.deskripsi
    ensures b.idGuru == ParseInt(form.idGuru) && b.idSiswa == ParseInt(form.idSiswa)
  {
    PengaduanRoute.StatusNameRoundTrip(form.status);
    PengaduanRoute.PengaduanBody(
      form.deskripsi,
      ParseInt(form.idGuru),
      ParseInt(form.idSiswa),
      StatusName(form.status),
      if form.status == Ditolak then form.alasan else "")
  }

  /** `handleSubmit`'s request: `PUT` to the selected complaint, or `POST`. */
  function Submit(selected: Option<Row>, form: PengaduanForm): (r: Request<PengaduanRoute.PengaduanBody>)
    ensures r.verb == Put <==> selected.Some?
    ensures selected.Some? ==> r.target == Item(selected.value.record.id)
    ensures selected.None? ==> r.target == Collection
    ensures r.body == Payload(form)
  {
    SubmitRequest(if selected.Some? then Some(selected.value.record.id) else None, Payload(form))
  }

  /** The reason that reaches the database, once the route has applied
      `alasan_penolakan || null`, is there exactly when the form says
      `Ditolak` and gives a reason. */
  lemma ReasonOnlyWhenRejected(form: PengaduanForm)
    ensures NullIfEmpty(Payload(form).alasan).Some? <==> form.status == Ditolak && form.alasan != ""
    ensures NullIfEmpty(Payload(form).alasan).Some? ==> NullIfEmpty(Payload(form).alasan).value == form.alasan
  {
  }

  /** Submitting an unchanged edit form sends a `PUT` to the complaint's row
      with its own description, guru, siswa and status. The reason sent is
      the stored one (the empty text for a null one) when the complaint is
      rejected, and `null` (here "") otherwise. */
  lemma EditFormRoundTrip(p: Row)
    ensures Submit(Some(p), EditForm(p)).verb == Put
    ensures Submit(Some(p), EditForm(p)).target == Item(p.record.id)
    ensures var b := Submit(Some(p), EditForm(p)).body;
      && b.deskripsi == p.record.deskripsi
      && b.idGuru == Some(p.guru.id) && b.idSiswa == Some(p.siswa.id)
      && PengaduanRoute.StatusOrDefault(b.status) == Some(p.record.status)
      && b.alasan == (if p.record.status == Ditolak && p.record.alasanPenolakan.Some?
                      then p.record.alasanPenolakan.value else "")
  {
  }

  /** A reset form sent as a create is refused by the route. */
  lemma EmptyFormRefused()
    ensures PengaduanRoute.MissingRequired(Submit(None, EmptyForm).body)
  {
    EmptyIsNaN();
  }

  /** Creating from the page: the complaint the route stores has the form's
      status, and a reason exactly when that status is `Ditolak` and the form
      gives one. */
  method CreateFromForm(db: Db.Store, form: PengaduanForm, now: nat)
    returns (res: Response<PengaduanRoute.CreatedPengaduan>)
    requires db.Valid()
    modifies db
    ensures db.Valid()
    ensures res.Created? ==> res.value.record.status == form.status
    ensures res.Created? ==>
      (res.value.record.alasanPenolakan.Some? <==> form.status == Ditolak && form.alasan != "")
    ensures res.Created? ==> res.value.record.id == old(db.nextPengaduanId) && res.value.record.tgl == now
  {
    ReasonOnlyWhenRejected(form);
    res := PengaduanRoute.Post(db, Submit(None, form).body, now);
  }

  /** The page with its form state. */
  method NewPage() returns (page: FormPage<Row, PengaduanForm>)
    ensures fresh(page)
    ensures page.empty == EmptyForm && page.edit == EditForm
    ensures page.form == EmptyForm && page.selected == None && !page.modalOpen
  {
    page := new FormPage(EmptyForm, EditForm);
  }
}
