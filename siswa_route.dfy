/** `/api/siswa`: listing (optionally by class) and creating students. */
module SiswaRoute {
  import opened Domain
  import opened Seqs
  import opened Db

  /** The JSON body of a create request. */
  datatype SiswaBody = SiswaBody(nisn: Text, nama: Text, kelas: Text, kontakOrtu: Text)

  const RequiredMessage: Text := "All fields are required"
  const ExistsMessage: Text := "NISN already exists"

  predicate MissingRequired(body: SiswaBody)
  {
    Falsy(body.nisn) || Falsy(body.nama) || Falsy(body.kelas) || Falsy(body.kontakOrtu)
  }

  /** `POST`: check the four fields, then NISN uniqueness, then insert them
      as given. */
  method Post(db: Store, body: SiswaBody) returns (res: Response<Siswa>)
    requires db.Valid()
    modifies db
    ensures db.Valid()
    ensures MissingRequired(body) ==>
      res == BadRequest(RequiredMessage) && db.State() == old(db.State())
    ensures !MissingRequired(body) && old(db.HasNisn(body.nisn)) ==>
      res == Conflict(ExistsMessage) && db.State() == old(db.State())
    ensures !MissingRequired(body) && !old(db.HasNisn(body.nisn)) ==>
      var s := Siswa(old(db.nextSiswaId), body.nisn, body.nama, body.kelas, body.kontakOrtu);
      && res == Created(s)
      && db.State() == old(db.State()).(siswa := old(db.siswa) + [s], nextSiswaId := old(db.nextSiswaId) + 1)
  {
    if MissingRequired(body) {
      return BadRequest(RequiredMessage);
    }
    if db.HasNisn(body.nisn) {
      return Conflict(ExistsMessage);
    }
    var s := db.InsertSiswa(body.nisn, body.nama, body.kelas, body.kontakOrtu);
    res := Created(s);
  }

  /** `where = kelas ? { kelas } : {}`. */
  function InKelas(kelas: Text): Siswa -> bool
  {
    (s: Siswa) => kelas == "" || s.kelas == kelas
  }

  /** The complaints about a student. */
  function BySiswa(id: int): Pengaduan -> bool
  {
    (p: Pengaduan) => p.idSiswa == id
  }

  /** `GET ?kelas=`: the students of that class (every student when the
      parameter is absent or empty), newest id first, with the number of
      complaints about each. */
  function Get(db: Store, kelas: Text): (r: seq<Counted<Siswa>>)
    requires db.Valid()
    reads db
    ensures forall s :: s in Items(r) <==> s in db.siswa && (kelas == "" || s.kelas == kelas)
    ensures multiset(Items(r)) == multiset(Filter(db.siswa, InKelas(kelas)))
    ensures forall i, j :: 0 <= i < j < |r| ==> r[i].item.id > r[j].item.id
    ensures forall i :: 0 <= i < |r| ==> r[i].count == Count(db.pengaduan, BySiswa(r[i].item.id))
  {
    var ps := db.pengaduan;
    var matching := Filter(db.siswa, InKelas(kelas));
    FilterKeepsDistinct(db.siswa, InKelas(kelas), SiswaId);
    SortDescStrict(matching, SiswaId);
    var sorted := SortDesc(matching, SiswaId);
    ItemsOfWithCounts(sorted, (s: Siswa) => Count(ps, BySiswa(s.id)));
    assert forall s :: s in sorted <==> s in matching by {
      forall s ensures s in sorted <==> s in matching { SameMembers(sorted, matching, s); }
    }
    WithCounts(sorted, (s: Siswa) => Count(ps, BySiswa(s.id)))
  }
}
