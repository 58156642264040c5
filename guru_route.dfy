/** `/api/guru`: listing and creating staff. */
module GuruRoute {
  import opened Domain
  import opened Seqs
  import opened Db

  /** The JSON body of a create request. */
  datatype GuruBody = GuruBody(nip: Text, nama: Text, noTelp: Text)

  const RequiredMessage: Text := "NIP and nama_guru are required"
  const ExistsMessage: Text := "NIP already exists"

  /** `no_telp` is optional: only the NIP and the name are checked. */
  predicate MissingRequired(body: GuruBody)
  {
    Falsy(body.nip) || Falsy(body.nama)
  }

  /** `POST`: check NIP and name, then NIP uniqueness, then insert with
      `no_telp || null`. */
  method Post(db: Store, body: GuruBody) returns (res: Response<Guru>)
    requires db.Valid()
    modifies db
    ensures db.Valid()
    ensures MissingRequired(body) ==>
      res == BadRequest(RequiredMessage) && db.State() == old(db.State())
    ensures !MissingRequired(body) && old(db.HasNip(body.nip)) ==>
      res == Conflict(ExistsMessage) && db.State() == old(db.State())
    ensures !MissingRequired(body) && !old(db.HasNip(body.nip)) ==>
      var g := Guru(old(db.nextGuruId), body.nip, body.nama, NullIfEmpty(body.noTelp));
      && res == Created(g)
      && db.State() == old(db.State()).(guru := old(db.guru) + [g], nextGuruId := old(db.nextGuruId) + 1)
    ensures res.Created? ==> (res.value.noTelp.None? <==> body.noTelp == "")
  {
    if MissingRequired(body) {
      return BadRequest(RequiredMessage);
    }
    if db.HasNip(body.nip) {
      return Conflict(ExistsMessage);
    }
    var g := db.InsertGuru(body.nip, body.nama, NullIfEmpty(body.noTelp));
    res := Created(g);
  }

  /** The complaints filed by a staff member. */
  function ByGuru(id: int): Pengaduan -> bool
  {
    (p: Pengaduan) => p.idGuru == id
  }

  /** `GET`: every staff member, newest id first, with the number of complaints
      they filed. */
  function Get(db: Store): (r: seq<Counted<Guru>>)
    requires db.Valid()
    reads db
    ensures multiset(Items(r)) == multiset(db.guru)
    ensures forall i, j :: 0 <= i < j < |r| ==> r[i].item.id > r[j].item.id
    ensures forall i :: 0 <= i < |r| ==> r[i].count == Count(db.pengaduan, ByGuru(r[i].item.id))
  {
    var ps := db.pengaduan;
    SortDescStrict(db.guru, GuruId);
    var sorted := SortDesc(db.guru, GuruId);
    ItemsOfWithCounts(sorted, (g: Guru) => Count(ps, ByGuru(g.id)));
    WithCounts(sorted, (g: Guru) => Count(ps, ByGuru(g.id)))
  }
}
