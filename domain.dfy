/** Records of the complaint tracker (the Prisma models as the routes and pages
    see them), the two enumerations stored by the database, and the response
    shape shared by every route handler. */
module Domain {

  /** A JavaScript string. In request bodies the empty string also stands for an
      absent or null field: every handler treats the three the same way. */
  type Text = seq<char>

  datatype Option<T> = None | Some(value: T)

  /** `status_laporan`: the four values of the complaint status enumeration. */
  datatype Status = Menunggu | Disetujui | Ditolak | Selesai

  function StatusName(s: Status): Text
  {
    match s
    case Menunggu => "Menunggu"
    case Disetujui => "Disetujui"
    case Ditolak => "Ditolak"
    case Selesai => "Selesai"
  }

  /** How the database reads a status string: one of the four names, or a value
      the enumeration column refuses. */
  function ParseStatus(t: Text): (r: Option<Status>)
    ensures r.Some? ==> StatusName(r.value) == t
    ensures (exists s :: StatusName(s) == t) ==> r.Some?
  {
    if t == "Menunggu" then Some(Menunggu)
    else if t == "Disetujui" then Some(Disetujui)
    else if t == "Ditolak" then Some(Ditolak)
    else if t == "Selesai" then Some(Selesai)
    else None
  }

  /** `role` of an account. */
  datatype Role = Admin | Petugas

  function RoleName(r: Role): Text
  {
    match r
    case Admin => "admin"
    case Petugas => "petugas"
  }

  function ParseRole(t: Text): (r: Option<Role>)
    ensures r.Some? ==> RoleName(r.value) == t
    ensures (exists x :: RoleName(x) == t) ==> r.Some?
  {
    if t == "admin" then Some(Admin)
    else if t == "petugas" then Some(Petugas)
    else None
  }

  /** Table `users`; `passwordHash` is whatever the password hash produced. */
  datatype User = User(id: int, username: Text, passwordHash: Text, role: Role)

  /** What the user routes return about an account: never the password. */
  datatype UserSummary = UserSummary(id: int, username: Text, role: Role)

  function Summary(u: User): UserSummary
  {
    UserSummary(u.id, u.username, u.role)
  }

  /** Table `guru`: staff; `nip` is the employee number. */
  datatype Guru = Guru(id: int, nip: Text, nama: Text, noTelp: Option<Text>)

  /** Table `siswa`: students; `nisn` is the national student number. */
  datatype Siswa = Siswa(id: int, nisn: Text, nama: Text, kelas: Text, kontakOrtu: Text)

  /** Table `pengaduan`: a complaint. `tgl` is the filing time on an abstract clock. */
  datatype Pengaduan = Pengaduan(
    id: int,
    tgl: nat,
    deskripsi: Text,
    status: Status,
    alasanPenolakan: Option<Text>,
    idGuru: int,
    idSiswa: int)

  /** Table `template_surat`: letter templates. */
  datatype Template = Template(id: int, nama: Text, isi: Text)

  /** Table `tindak_lanjut`: the resolution of a complaint. No handler modelled
      here writes it; the listings count and join it. */
  datatype TindakLanjut = TindakLanjut(
    id: int,
    tglProses: nat,
    catatan: Text,
    idTemplate: int,
    idUser: int,
    idPengaduan: int)

  /** The outcome of a route handler, one constructor per HTTP status it sends. */
  datatype Response<T> =
    | Ok(value: T)
    | Created(value: T)
    | BadRequest(error: Text)
    | NotFound(error: Text)
    | Conflict(error: Text)
    | Unavailable(error: Text)
  {
    function Code(): int
    {
      match this
      case Ok(_) => 200
      case Created(_) => 201
      case BadRequest(_) => 400
      case NotFound(_) => 404
      case Conflict(_) => 409
      case Unavailable(_) => 500
    }
  }

  /** JavaScript truthiness of a body field: "", null and undefined are falsy. */
  predicate Falsy(t: Text)
  {
    t == ""
  }

  /** Falsiness of a numeric body field: absent, null, NaN or 0. */
  predicate FalsyId(id: Option<int>)
  {
    id.None? || id.value == 0
  }

  /** `x || null` on a text field. */
  function NullIfEmpty(t: Text): (r: Option<Text>)
    ensures r.Some? <==> t != ""
    ensures r.Some? ==> r.value == t
  {
    if t == "" then None else Some(t)
  }
}
