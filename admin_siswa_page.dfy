/** The student page: search with a class filter, the list of classes the
    filter offers, and the student form. */
module AdminSiswaPage {
  import opened Domain
  import opened Seqs
  import opened Texts
  import opened PageState
  import SiswaRoute

  /** Name or NISN contains the term, and the class filter is off or equal. */
  predicate Matches(s: Siswa, term: Text, kelas: Text)
  {
    (ContainsIgnoringCase(s.nama, term) || ContainsIgnoringCase(s.nisn, term))
    && (kelas == "" || s.kelas == kelas)
  }

  function Keep(term: Text, kelas: Text): Siswa -> bool
  {
    (s: Siswa) => Matches(s, term, kelas)
  }

  /** `filteredSiswa`, in the original order; with an empty term and no class
      filter every row is kept. */
  function Filtered(ss: seq<Siswa>, term: Text, kelas: Text): (r: seq<Siswa>)
    ensures forall s :: s in r <==> s in ss && Matches(s, term, kelas)
    ensures IsSubsequence(r, ss)
    ensures term == "" && kelas == "" ==> r == ss
  {
    var r := Filter(ss, Keep(term, kelas));
    assert forall s :: s in r <==> s in ss && Matches(s, term, kelas) by {
      forall s ensures s in r <==> s in ss && Matches(s, term, kelas) {
        FilterMembers(ss, Keep(term, kelas), s);
        assert Keep(term, kelas)(s) == Matches(s, term, kelas);
      }
    }
    FilterIsSubsequence(ss, Keep(term, kelas));
    NoFilterKeepsAll(ss);
    r
  }

  lemma NoFilterKeepsAll(ss: seq<Siswa>)
    ensures Filter(ss, Keep("", "")) == ss
  {
    forall i | 0 <= i < |ss| ensures Keep("", "")(ss[i]) {
      EmptyTermMatches(ss[i].nama);
      assert Keep("", "")(ss[i]) == Matches(ss[i], "", "");
    }
    FilterKeepsAll(ss, Keep("", ""));
  }

  function KelasOf(ss: seq<Siswa>): (r: seq<Text>)
    ensures |r| == |ss|
    ensures forall i :: 0 <= i < |ss| ==> r[i] == ss[i].kelas
  {
    seq(|ss|, i requires 0 <= i < |ss| => ss[i].kelas)
  }

  function TextKey(t: Text): Text { t }

  /** `Array.from(new Set(siswa.map(s => s.kelas))).sort()`: every class that
      occurs, once each, in ascending order. */
  function UniqueKelas(ss: seq<Siswa>): (r: seq<Text>)
    ensures SortedText(r)
    ensures forall i, j :: 0 <= i < j < |r| ==> r[i] != r[j]
    ensures forall k :: k in r <==> exists i :: 0 <= i < |ss| && ss[i].kelas == k
  {
    var all := KelasOf(ss);
    var distinct := Dedup(all);
    var r := SortText(distinct);
    assert DistinctBy(distinct, TextKey);
    DistinctByPermutation(r, distinct, TextKey);
    assert forall i, j :: 0 <= i < j < |r| ==> r[i] != r[j] by {
      forall i, j | 0 <= i < j < |r| ensures r[i] != r[j] {
        assert TextKey(r[i]) != TextKey(r[j]);
      }
    }
    assert forall k :: k in r <==> k in all by {
      forall k ensures k in r <==> k in all { SameMembers(r, distinct, k); }
    }
    assert forall k :: k in all <==> exists i :: 0 <= i < |ss| && ss[i].kelas == k by {
      forall k ensures k in all <==> exists i :: 0 <= i < |ss| && ss[i].kelas == k {
        if k in all {
          var i :| 0 <= i < |all| && all[i] == k;
          assert ss[i].kelas == k;
        }
      }
    }
    r
  }

  /** `formData`. */
  datatype SiswaForm = SiswaForm(nisn: Text, nama: Text, kelas: Text, kontakOrtu: Text)

  /** `resetForm`: the four fields empty. */
  const EmptyForm: SiswaForm := SiswaForm("", "", "", "")

  /** What `openEditModal` copies into the form: the four fields unchanged. */
  function EditForm(s: Siswa): (f: SiswaForm)
    ensures f.nisn == s.nisn && f.nama == s.nama && f.kelas == s.kelas && f.kontakOrtu == s.kontakOrtu
  {
    SiswaForm(s.nisn, s.nama, s.kelas, s.kontakOrtu)
  }

  /** `handleSubmit`'s request: the form as the body, to the selected row if
      there is one. */
  function Submit(selected: Option<Siswa>, form: SiswaForm): (r: Request<SiswaRoute.SiswaBody>)
    ensures r.verb == Put <==> selected.Some?
    ensures selected.Some? ==> r.target == Item(selected.value.id)
    ensures r.body == SiswaRoute.SiswaBody(form.nisn, form.nama, form.kelas, form.kontakOrtu)
  {
    SubmitRequest(if selected.Some? then Some(selected.value.id) else None,
                  SiswaRoute.SiswaBody(form.nisn, form.nama, form.kelas, form.kontakOrtu))
  }

  /** A reset form sent as a create is refused by the route. */
  lemma EmptyFormRefused()
    ensures SiswaRoute.MissingRequired(Submit(None, EmptyForm).body)
  {
  }

  /** The page with its form state. */
  method NewPage() returns (page: FormPage<Siswa, SiswaForm>)
    ensures fresh(page)
    ensures page.empty == EmptyForm && page.edit == EditForm
    ensures page.form == EmptyForm && page.selected == None && !page.modalOpen
  {
    page := new FormPage(EmptyForm, EditForm);
  }
}
