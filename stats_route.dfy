/** `/api/stats`: the dashboard counters. */
module StatsRoute {
  import opened Domain
  import opened Seqs
  import opened Db
  import opened StatusTally

  datatype ByStatus = ByStatus(menunggu: nat, disetujui: nat, ditolak: nat, selesai: nat)

  datatype Stats = Stats(
    totalUsers: nat,
    totalGuru: nat,
    totalSiswa: nat,
    totalPengaduan: nat,
    pengaduanByStatus: ByStatus)

  function PengaduanStatus(p: Pengaduan): Status { p.status }

  /** The complaints of one status, as `count({ where: { status_laporan } })` counts them. */
  function CountStatus(db: Store, s: Status): nat
    reads db
  {
    Tally(db.pengaduan, PengaduanStatus, s)
  }

  /** `GET`: the four table sizes and the number of complaints per status.
      Every complaint has exactly one of the four statuses, so the per-status
      counts add up to the number of complaints. */
  function Get(db: Store): (r: Stats)
    reads db
    ensures r.totalUsers == |db.users| && r.totalGuru == |db.guru|
    ensures r.totalSiswa == |db.siswa| && r.totalPengaduan == |db.pengaduan|
    ensures var m := multiset(StatusesOf(db.pengaduan, PengaduanStatus));
      && r.pengaduanByStatus.menunggu == m[Menunggu]
      && r.pengaduanByStatus.disetujui == m[Disetujui]
      && r.pengaduanByStatus.ditolak == m[Ditolak]
      && r.pengaduanByStatus.selesai == m[Selesai]
    ensures r.pengaduanByStatus.menunggu + r.pengaduanByStatus.disetujui
          + r.pengaduanByStatus.ditolak + r.pengaduanByStatus.selesai == r.totalPengaduan
  {
    TallyIsMultiplicity(db.pengaduan, PengaduanStatus, Menunggu);
    TallyIsMultiplicity(db.pengaduan, PengaduanStatus, Disetujui);
    TallyIsMultiplicity(db.pengaduan, PengaduanStatus, Ditolak);
    TallyIsMultiplicity(db.pengaduan, PengaduanStatus, Selesai);
    TalliesSum(db.pengaduan, PengaduanStatus);
    Stats(
      |db.users|, |db.guru|, |db.siswa|, |db.pengaduan|,
      ByStatus(
        CountStatus(db, Menunggu), CountStatus(db, Disetujui),
        CountStatus(db, Ditolak), CountStatus(db, Selesai)))
  }

  /** Filing a complaint raises the total and exactly the counter of its status. */
  lemma FilingRaisesOneCounter(ps: seq<Pengaduan>, p: Pengaduan, s: Status)
    ensures Tally(ps + [p], PengaduanStatus, s) == Tally(ps, PengaduanStatus, s) + (if p.status == s then 1 else 0)
  {
    var keep := WithStatus(PengaduanStatus, s);
    FilterAppend(ps, [p], keep);
    assert keep(p) == (PengaduanStatus(p) == s);
    assert [p][1..] == [];
    assert |Filter([p], keep)| == if p.status == s then 1 else 0;
  }
}
