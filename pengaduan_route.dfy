/** `/api/pengaduan`: listing complaints (optionally by status) with their
    staff member, student and resolution, and filing a complaint. */
module PengaduanRoute {
  import opened Domain
  import opened Seqs
  import opened Db

  /** The JSON body of a create request. The ids are the numbers `parseInt`
      reads from the fields; `None` stands for an absent, null or NaN field. */
  datatype PengaduanBody = PengaduanBody(
    deskripsi: Text,
    idGuru: Option<int>,
    idSiswa: Option<int>,
    status: Text,
    alasan: Text)

  const RequiredMessage: Text := "deskripsi_masalah, id_guru, and id_siswa are required"
  const GuruNotFoundMessage: Text := "Guru not found"
  const SiswaNotFoundMessage: Text := "Siswa not found"
  const CreateFailedMessage: Text := "Failed to create pengaduan"
  const FetchFailedMessage: Text := "Failed to fetch pengaduan"

  predicate MissingRequired(body: PengaduanBody)
  {
    Falsy(body.deskripsi) || FalsyId(body.idGuru) || FalsyId(body.idSiswa)
  }

  /** `status_laporan || 'Menunggu'` as the status column reads it: an empty
      field is the default, any other text must name one of the four statuses. */
  function StatusOrDefault(t: Text): (r: Option<Status>)
    ensures t == "" ==> r == Some(Menunggu)
    ensures t != "" ==> (r.Some? <==> exists s :: StatusName(s) == t)
    ensures t != "" && r.Some? ==> StatusName(r.value) == t
  {
    if t == "" then Some(Menunggu) else ParseStatus(t)
  }

  /** A status sent by name is stored as that status. */
  lemma StatusNameRoundTrip(s: Status)
    ensures StatusOrDefault(StatusName(s)) == Some(s)
  {
  }

  /** The created complaint, returned with its full guru and siswa records. */
  datatype CreatedPengaduan = CreatedPengaduan(record: Pengaduan, guru: Guru, siswa: Siswa)

  /** `POST`: check the required fields, then that the guru exists, then that
      the siswa exists, then insert with the clock reading `now`, the status
      or its default, and `alasan_penolakan || null`. */
  method Post(db: Store, body: PengaduanBody, now: nat) returns (res: Response<CreatedPengaduan>)
    requires db.Valid()
    modifies db
    ensures db.Valid()
    ensures MissingRequired(body) ==>
      res == BadRequest(RequiredMessage) && db.State() == old(db.State())
    ensures !MissingRequired(body) && !old(db.HasGuru(body.idGuru.value)) ==>
      res == NotFound(GuruNotFoundMessage) && db.State() == old(db.State())
    ensures !MissingRequired(body) && old(db.HasGuru(body.idGuru.value)) && !old(db.HasSiswa(body.idSiswa.value)) ==>
      res == NotFound(SiswaNotFoundMessage) && db.State() == old(db.State())
    ensures !MissingRequired(body) && old(db.HasGuru(body.idGuru.value)) && old(db.HasSiswa(body.idSiswa.value))
            && StatusOrDefault(body.status).None? ==>
      res == Unavailable(CreateFailedMessage) && db.State() == old(db.State())
    ensures !MissingRequired(body) && old(db.HasGuru(body.idGuru.value)) && old(db.HasSiswa(body.idSiswa.value))
            && StatusOrDefault(body.status).Some? ==>
      var p := Pengaduan(old(db.nextPengaduanId), now, body.deskripsi, StatusOrDefault(body.status).value,
                         NullIfEmpty(body.alasan), body.idGuru.value, body.idSiswa.value);
      && res == Created(CreatedPengaduan(p, Find(old(db.guru), GuruId, p.idGuru).value, Find(old(db.siswa), SiswaId, p.idSiswa).value))
      && db.State() == old(db.State()).(pengaduan := old(db.pengaduan) + [p],
                                        nextPengaduanId := old(db.nextPengaduanId) + 1)
    ensures res.Created? ==>
      && res.value.guru in db.guru && res.value.guru.id == res.value.record.idGuru
      && res.value.siswa in db.siswa && res.value.siswa.id == res.value.record.idSiswa
  {
    if MissingRequired(body) {
      return BadRequest(RequiredMessage);
    }
    var guru := Find(db.guru, GuruId, body.idGuru.value);
    if guru.None? {
      return NotFound(GuruNotFoundMessage);
    }
    var siswa := Find(db.siswa, SiswaId, body.idSiswa.value);
    if siswa.None? {
      return NotFound(SiswaNotFoundMessage);
    }
    var status := StatusOrDefault(body.status);
    if status.None? {
      return Unavailable(CreateFailedMessage);
    }
    var p := db.InsertPengaduan(now, body.deskripsi, status.value, NullIfEmpty(body.alasan),
                                body.idGuru.value, body.idSiswa.value);
    res := Created(CreatedPengaduan(p, guru.value, siswa.value));
  }

  /** The guru fields a listing selects. */
  datatype GuruRef = GuruRef(id: int, nama: Text, nip: Text)

  /** The siswa fields a listing selects. */
  datatype SiswaRef = SiswaRef(id: int, nama: Text, nisn: Text, kelas: Text)

  /** The resolution fields a listing selects. */
  datatype TindakLanjutRef = TindakLanjutRef(id: int, tglProses: nat, catatan: Text)

  /** One listed complaint with what the query includes. */
  datatype PengaduanRow = PengaduanRow(
    record: Pengaduan,
    guru: GuruRef,
    siswa: SiswaRef,
    tindakLanjut: Option<TindakLanjutRef>)

  function RowTgl(r: PengaduanRow): int { r.record.tgl }

  function PengaduanTgl(p: Pengaduan): int { p.tgl }

  function Records(rows: seq<PengaduanRow>): (r: seq<Pengaduan>)
    ensures |r| == |rows|
    ensures forall i :: 0 <= i < |rows| ==> r[i] == rows[i].record
  {
    seq(|rows|, i requires 0 <= i < |rows| => rows[i].record)
  }

  /** `where = status ? { status_laporan: status } : {}`. */
  function WithStatus(status: Text): Pengaduan -> bool
  {
    (p: Pengaduan) => status == "" || StatusName(p.status) == status
  }

  /** The complaint's guru and siswa are in the tables. */
  predicate Refers(t: Tables, p: Pengaduan)
  {
    Find(t.guru, GuruId, p.idGuru).Some? && Find(t.siswa, SiswaId, p.idSiswa).Some?
  }

  /** A listed row carries the selected fields of its complaint's guru and
      siswa, and, exactly when the complaint has a resolution, the selected
      fields of one of its resolutions. */
  ghost predicate JoinedRow(t: Tables, row: PengaduanRow)
  {
    && (exists i :: 0 <= i < |t.guru| && t.guru[i].id == row.record.idGuru
                 && row.guru == GuruRef(t.guru[i].id, t.guru[i].nama, t.guru[i].nip))
    && (exists i :: 0 <= i < |t.siswa| && t.siswa[i].id == row.record.idSiswa
                 && row.siswa == SiswaRef(t.siswa[i].id, t.siswa[i].nama, t.siswa[i].nisn, t.siswa[i].kelas))
    && (row.tindakLanjut.None? <==>
          forall i :: 0 <= i < |t.tindakLanjut| ==> t.tindakLanjut[i].idPengaduan != row.record.id)
    && (row.tindakLanjut.Some? ==>
          exists i :: 0 <= i < |t.tindakLanjut| && t.tindakLanjut[i].idPengaduan == row.record.id
                   && row.tindakLanjut.value == TindakLanjutRef(t.tindakLanjut[i].id,
                                                                t.tindakLanjut[i].tglProses,
                                                                t.tindakLanjut[i].catatan))
  }

  /** The row of a complaint whose guru and siswa exist. */
  function Join(t: Tables, p: Pengaduan): (r: PengaduanRow)
    requires Refers(t, p)
    ensures r.record == p
  {
    var g := Find(t.guru, GuruId, p.idGuru).value;
    var s := Find(t.siswa, SiswaId, p.idSiswa).value;
    var tl := Find(t.tindakLanjut, ResolvedPengaduan, p.id);
    PengaduanRow(
      p,
      GuruRef(g.id, g.nama, g.nip),
      SiswaRef(s.id, s.nama, s.nisn, s.kelas),
      if tl.Some? then Some(TindakLanjutRef(tl.value.id, tl.value.tglProses, tl.value.catatan)) else None)
  }

  /** The rows of complaints taken from the table, in the same order. */
  function JoinAll(t: Tables, ps: seq<Pengaduan>): (r: seq<PengaduanRow>)
    requires forall i :: 0 <= i < |ps| ==> Refers(t, ps[i])
    ensures |r| == |ps|
    ensures forall i :: 0 <= i < |r| ==> r[i] == Join(t, ps[i])
  {
    if |ps| == 0 then []
    else
      var head := Join(t, ps[0]);
      var tail := JoinAll(t, ps[1..]);
      [head] + tail
  }

  /** The complaints kept by the status filter, in any order, are exactly the
      stored complaints with that status. */
  lemma MembersOfMatching(db: Store, status: Text, sorted: seq<Pengaduan>)
    requires multiset(sorted) == multiset(Filter(db.pengaduan, WithStatus(status)))
    ensures forall p :: p in sorted <==> p in db.pengaduan && (status == "" || StatusName(p.status) == status)
  {
    var matching := Filter(db.pengaduan, WithStatus(status));
    forall p ensures p in sorted <==> p in db.pengaduan && (status == "" || StatusName(p.status) == status) {
      SameMembers(sorted, matching, p);
      FilterMembers(db.pengaduan, WithStatus(status), p);
      assert WithStatus(status)(p) == (status == "" || StatusName(p.status) == status);
    }
  }

  /** Complaints taken from a valid store all refer to a stored guru and siswa. */
  lemma StoredRefsExist(db: Store, ps: seq<Pengaduan>)
    requires db.Valid()
    requires forall p :: p in ps ==> p in db.pengaduan
    ensures forall i :: 0 <= i < |ps| ==> Refers(db.State(), ps[i])
  {
    forall i | 0 <= i < |ps| ensures Refers(db.State(), ps[i]) {
      db.RefsExist(ps[i]);
    }
  }

  /** The row of a complaint carries its own guru, siswa and resolution. */
  lemma JoinIsJoined(t: Tables, p: Pengaduan)
    requires Refers(t, p)
    ensures JoinedRow(t, Join(t, p))
  {
  }

  /** In a valid store a complaint has at most one resolution, so a joined
      row that has one carries that resolution. */
  lemma TheResolution(db: Store, row: PengaduanRow, i: int)
    requires db.Valid() && JoinedRow(db.State(), row)
    requires 0 <= i < |db.tindakLanjut| && db.tindakLanjut[i].idPengaduan == row.record.id
    ensures row.tindakLanjut == Some(TindakLanjutRef(db.tindakLanjut[i].id,
                                                     db.tindakLanjut[i].tglProses,
                                                     db.tindakLanjut[i].catatan))
  {
    var ts := db.tindakLanjut;
    var j :| 0 <= j < |ts| && ts[j].idPengaduan == row.record.id
             && row.tindakLanjut.value == TindakLanjutRef(ts[j].id, ts[j].tglProses, ts[j].catatan);
    assert ResolvedPengaduan(ts[i]) == ResolvedPengaduan(ts[j]);
  }

  /** Every row of a join is correctly joined, and the rows hold the
      complaints in their order. */
  lemma RowsJoined(t: Tables, ps: seq<Pengaduan>, rows: seq<PengaduanRow>)
    requires forall i :: 0 <= i < |ps| ==> Refers(t, ps[i])
    requires |rows| == |ps| && forall i :: 0 <= i < |rows| ==> rows[i] == Join(t, ps[i])
    ensures forall i :: 0 <= i < |rows| ==> JoinedRow(t, rows[i])
    ensures Records(rows) == ps
  {
    forall i | 0 <= i < |rows| ensures JoinedRow(t, rows[i]) && Records(rows)[i] == ps[i] {
      JoinIsJoined(t, ps[i]);
    }
  }

  /** Joining keeps the order by filing time. */
  lemma RowsSorted(rows: seq<PengaduanRow>, ps: seq<Pengaduan>)
    requires Records(rows) == ps && SortedDesc(ps, PengaduanTgl)
    ensures SortedDesc(rows, RowTgl)
  {
    forall i | 0 <= i < |rows| ensures RowTgl(rows[i]) == PengaduanTgl(ps[i]) {
      assert Records(rows)[i] == ps[i];
    }
  }

  /** `GET ?status=`: the complaints with that status (all of them when the
      parameter is absent or empty), newest filing first, each joined with its
      guru, siswa and resolution. A status outside the enumeration makes the
      query throw, which the handler reports as a 500. */
  function Get(db: Store, status: Text): (r: Response<seq<PengaduanRow>>)
    requires db.Valid()
    reads db
    ensures r.Unavailable? <==> status != "" && ParseStatus(status).None?
    ensures r.Unavailable? ==> r.error == FetchFailedMessage
    ensures !r.Unavailable? ==> r.Ok?
    ensures r.Ok? ==> forall p :: p in Records(r.value) <==> p in db.pengaduan && (status == "" || StatusName(p.status) == status)
    ensures r.Ok? ==> multiset(Records(r.value)) == multiset(Filter(db.pengaduan, WithStatus(status)))
    ensures r.Ok? ==> SortedDesc(r.value, RowTgl)
    ensures r.Ok? ==> forall i :: 0 <= i < |r.value| ==> JoinedRow(db.State(), r.value[i])
  {
    if status != "" && ParseStatus(status).None? then Unavailable(FetchFailedMessage)
    else
      var matching := Filter(db.pengaduan, WithStatus(status));
      var sorted := SortDesc(matching, PengaduanTgl);
      MembersOfMatching(db, status, sorted);
      StoredRefsExist(db, sorted);
      var rows := JoinAll(db.State(), sorted);
      RowsJoined(db.State(), sorted, rows);
      RowsSorted(rows, sorted);
      Ok(rows)
  }
}
