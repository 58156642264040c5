/** The database behind the route handlers, as an in-memory store with one
    table per model and one autoincrement counter per table. It stands in for
    the Prisma client: `findUnique` becomes a lookup, `create` an append with
    the next id, `count` a length. */
module Db {
  import opened Domain
  import opened Seqs

  function UserId(u: User): int { u.id }
  function Username(u: User): Text { u.username }
  function GuruId(g: Guru): int { g.id }
  function GuruNip(g: Guru): Text { g.nip }
  function SiswaId(s: Siswa): int { s.id }
  function SiswaNisn(s: Siswa): Text { s.nisn }
  function PengaduanId(p: Pengaduan): int { p.id }
  function TemplateId(t: Template): int { t.id }
  function TindakLanjutId(t: TindakLanjut): int { t.id }
  function ResolvedPengaduan(t: TindakLanjut): int { t.idPengaduan }

  /** Every id of the table is positive and below the next id to hand out. */
  ghost predicate IdsBelow<T>(s: seq<T>, id: T -> int, next: int)
  {
    0 < next && forall i :: 0 <= i < |s| ==> 0 < id(s[i]) < next
  }

  /** Appending a row under the next id keeps the ids below the new counter
      and gives the row an id no other row has. */
  lemma IdsBelowAppend<T>(s: seq<T>, x: T, id: T -> int, next: int)
    requires IdsBelow(s, id, next) && id(x) == next
    ensures IdsBelow(s + [x], id, next + 1)
    ensures forall i :: 0 <= i < |s| ==> id(s[i]) != id(x)
  {
    assert forall i :: 0 <= i < |s| ==> (s + [x])[i] == s[i];
  }

  /** A value snapshot of the whole store, used to say what an operation changed. */
  datatype Tables = Tables(
    users: seq<User>,
    guru: seq<Guru>,
    siswa: seq<Siswa>,
    pengaduan: seq<Pengaduan>,
    templates: seq<Template>,
    tindakLanjut: seq<TindakLanjut>,
    nextUserId: int,
    nextGuruId: int,
    nextSiswaId: int,
    nextPengaduanId: int,
    nextTemplateId: int)

  class Store {
    var users: seq<User>
    var guru: seq<Guru>
    var siswa: seq<Siswa>
    var pengaduan: seq<Pengaduan>
    var templates: seq<Template>
    var tindakLanjut: seq<TindakLanjut>
    var nextUserId: int
    var nextGuruId: int
    var nextSiswaId: int
    var nextPengaduanId: int
    var nextTemplateId: int

    /** The constraints the database schema enforces: the ids of accounts,
        staff, students, complaints and templates are positive, unique and
        below their counter; resolution ids are unique and a complaint has at
        most one resolution; `username`, `nip` and `nisn` are unique columns;
        and a complaint refers to an existing guru and siswa. */
    ghost predicate Valid()
      reads this
    {
      && IdsBelow(users, UserId, nextUserId) && DistinctBy(users, UserId)
      && IdsBelow(guru, GuruId, nextGuruId) && DistinctBy(guru, GuruId)
      && IdsBelow(siswa, SiswaId, nextSiswaId) && DistinctBy(siswa, SiswaId)
      && IdsBelow(pengaduan, PengaduanId, nextPengaduanId) && DistinctBy(pengaduan, PengaduanId)
      && IdsBelow(templates, TemplateId, nextTemplateId) && DistinctBy(templates, TemplateId)
      && DistinctBy(tindakLanjut, TindakLanjutId)
      && DistinctBy(tindakLanjut, ResolvedPengaduan)
      && DistinctBy(users, Username)
      && DistinctBy(guru, GuruNip)
      && DistinctBy(siswa, SiswaNisn)
      && (forall i :: 0 <= i < |pengaduan| ==>
            HasGuru(pengaduan[i].idGuru) && HasSiswa(pengaduan[i].idSiswa))
    }

    function State(): Tables
      reads this
    {
      Tables(users, guru, siswa, pengaduan, templates, tindakLanjut,
             nextUserId, nextGuruId, nextSiswaId, nextPengaduanId, nextTemplateId)
    }

    /** An empty database; ids start at 1. */
    constructor ()
      ensures Valid()
      ensures State() == Tables([], [], [], [], [], [], 1, 1, 1, 1, 1)
    {
      users, guru, siswa, pengaduan, templates, tindakLanjut := [], [], [], [], [], [];
      nextUserId, nextGuruId, nextSiswaId, nextPengaduanId, nextTemplateId := 1, 1, 1, 1, 1;
    }

    /** `prisma.users.findUnique({ where: { username } })` finds a row. */
    predicate HasUsername(name: Text)
      reads this
    {
      exists i :: 0 <= i < |users| && users[i].username == name
    }

    /** `prisma.guru.findUnique({ where: { nip } })` finds a row. */
    predicate HasNip(nip: Text)
      reads this
    {
      exists i :: 0 <= i < |guru| && guru[i].nip == nip
    }

    /** `prisma.siswa.findUnique({ where: { nisn } })` finds a row. */
    predicate HasNisn(nisn: Text)
      reads this
    {
      exists i :: 0 <= i < |siswa| && siswa[i].nisn == nisn
    }

    /** `prisma.guru.findUnique({ where: { id_guru } })` finds a row. */
    predicate HasGuru(id: int)
      reads this
    {
      exists i :: 0 <= i < |guru| && guru[i].id == id
    }

    /** `prisma.siswa.findUnique({ where: { id_siswa } })` finds a row. */
    predicate HasSiswa(id: int)
      reads this
    {
      exists i :: 0 <= i < |siswa| && siswa[i].id == id
    }

    /** A stored complaint refers to a stored guru and siswa. */
    lemma RefsExist(p: Pengaduan)
      requires Valid() && p in pengaduan
      ensures HasGuru(p.idGuru) && HasSiswa(p.idSiswa)
    {
      var k :| 0 <= k < |pengaduan| && pengaduan[k] == p;
    }

    /** `prisma.users.create`: appends the account under the next id. */
    method InsertUser(username: Text, passwordHash: Text, role: Role) returns (u: User)
      requires Valid()
      requires !HasUsername(username)
      modifies this
      ensures Valid()
      ensures u == User(old(nextUserId), username, passwordHash, role)
      ensures State() == old(State()).(users := old(users) + [u], nextUserId := old(nextUserId) + 1)
    {
      u := User(nextUserId, username, passwordHash, role);
      IdsBelowAppend(users, u, UserId, nextUserId);
      DistinctByAppend(users, u, UserId);
      DistinctByAppend(users, u, Username);
      users := users + [u];
      nextUserId := nextUserId + 1;
    }

    /** `prisma.guru.create`. */
    method InsertGuru(nip: Text, nama: Text, noTelp: Option<Text>) returns (g: Guru)
      requires Valid()
      requires !HasNip(nip)
      modifies this
      ensures Valid()
      ensures g == Guru(old(nextGuruId), nip, nama, noTelp)
      ensures State() == old(State()).(guru := old(guru) + [g], nextGuruId := old(nextGuruId) + 1)
    {
      g := Guru(nextGuruId, nip, nama, noTelp);
      IdsBelowAppend(guru, g, GuruId, nextGuruId);
      DistinctByAppend(guru, g, GuruId);
      DistinctByAppend(guru, g, GuruNip);
      var after := guru + [g];
      forall i | 0 <= i < |pengaduan|
        ensures exists k :: 0 <= k < |after| && after[k].id == pengaduan[i].idGuru
      {
        assert HasGuru(pengaduan[i].idGuru);
        var k :| 0 <= k < |guru| && guru[k].id == pengaduan[i].idGuru;
        assert after[k] == guru[k];
      }
      guru := after;
      nextGuruId := nextGuruId + 1;
    }

    /** `prisma.siswa.create`. */
    method InsertSiswa(nisn: Text, nama: Text, kelas: Text, kontakOrtu: Text) returns (s: Siswa)
      requires Valid()
      requires !HasNisn(nisn)
      modifies this
      ensures Valid()
      ensures s == Siswa(old(nextSiswaId), nisn, nama, kelas, kontakOrtu)
      ensures State() == old(State()).(siswa := old(siswa) + [s], nextSiswaId := old(nextSiswaId) + 1)
    {
      s := Siswa(nextSiswaId, nisn, nama, kelas, kontakOrtu);
      IdsBelowAppend(siswa, s, SiswaId, nextSiswaId);
      DistinctByAppend(siswa, s, SiswaId);
      DistinctByAppend(siswa, s, SiswaNisn);
      var after := siswa + [s];
      forall i | 0 <= i < |pengaduan|
        ensures exists k :: 0 <= k < |after| && after[k].id == pengaduan[i].idSiswa
      {
        assert HasSiswa(pengaduan[i].idSiswa);
        var k :| 0 <= k < |siswa| && siswa[k].id == pengaduan[i].idSiswa;
        assert after[k] == siswa[k];
      }
      siswa := after;
      nextSiswaId := nextSiswaId + 1;
    }

    /** `prisma.pengaduan.create`; the referenced guru and siswa exist. */
    method InsertPengaduan(tgl: nat, deskripsi: Text, status: Status, alasan: Option<Text>,
                           idGuru: int, idSiswa: int) returns (p: Pengaduan)
      requires Valid()
      requires HasGuru(idGuru) && HasSiswa(idSiswa)
      modifies this
      ensures Valid()
      ensures p == Pengaduan(old(nextPengaduanId), tgl, deskripsi, status, alasan, idGuru, idSiswa)
      ensures State() == old(State()).(pengaduan := old(pengaduan) + [p],
                                       nextPengaduanId := old(nextPengaduanId) + 1)
    {
      p := Pengaduan(nextPengaduanId, tgl, deskripsi, status, alasan, idGuru, idSiswa);
      IdsBelowAppend(pengaduan, p, PengaduanId, nextPengaduanId);
      DistinctByAppend(pengaduan, p, PengaduanId);
      pengaduan := pengaduan + [p];
      nextPengaduanId := nextPengaduanId + 1;
    }

    /** `prisma.templateSurat.create`: no column of a template is unique. */
    method InsertTemplate(nama: Text, isi: Text) returns (t: Template)
      requires Valid()
      modifies this
      ensures Valid()
      ensures t == Template(old(nextTemplateId), nama, isi)
      ensures State() == old(State()).(templates := old(templates) + [t],
                                       nextTemplateId := old(nextTemplateId) + 1)
    {
      t := Template(nextTemplateId, nama, isi);
      IdsBelowAppend(templates, t, TemplateId, nextTemplateId);
      DistinctByAppend(templates, t, TemplateId);
      templates := templates + [t];
      nextTemplateId := nextTemplateId + 1;
    }
  }

  /** `findUnique` / `findFirst` on a column: the first row of `s` whose key
      is `k`, if any. */
  function Find<T>(s: seq<T>, key: T -> int, k: int): (r: Option<T>)
    ensures r.Some? <==> exists i :: 0 <= i < |s| && key(s[i]) == k
    ensures r.Some? ==> r.value in s && key(r.value) == k
  {
    if |s| == 0 then None
    else if key(s[0]) == k then Some(s[0])
    else Find(s[1..], key, k)
  }

  /** The row `Find` returns is the first with that key. */
  lemma {:induction false} FindFirst<T>(s: seq<T>, key: T -> int, k: int, i: int)
    requires 0 <= i < |s| && key(s[i]) == k
    requires forall j :: 0 <= j < i ==> key(s[j]) != k
    ensures Find(s, key, k) == Some(s[i])
    decreases |s|
  {
    if i > 0 {
      assert forall j :: 0 <= j < i - 1 ==> s[1..][j] == s[j + 1];
      FindFirst(s[1..], key, k, i - 1);
    }
  }
}
