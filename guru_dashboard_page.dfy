/** The staff dashboard: the first five complaints of the listing and the
    counts of their statuses. */
module GuruDashboardPage {
  import opened Domain
  import opened Seqs
  import opened StatusTally
  import PengaduanRoute

  type Row = PengaduanRoute.PengaduanRow

  const Shown: nat := 5

  /** `data.slice(0, 5)`: a prefix of the listing, at most five rows long. */
  function Retained(data: seq<Row>): (r: seq<Row>)
    ensures |r| == Min(Shown, |data|)
    ensures r == data[..|r|]
    ensures |r| <= Shown
  {
    data[..Min(Shown, |data|)]
  }

  /** The listing comes newest first, so no complaint left out was filed
      after one that is shown. */
  lemma RetainedAreNewest(data: seq<Row>, i: int, j: int)
    requires SortedDesc(data, PengaduanRoute.RowTgl)
    requires 0 <= i < |Retained(data)| <= j < |data|
    ensures Retained(data)[i].record.tgl >= data[j].record.tgl
  {
    assert Retained(data)[i] == data[i];
    assert PengaduanRoute.RowTgl(data[i]) >= PengaduanRoute.RowTgl(data[j]);
  }

  datatype DashboardStats = DashboardStats(total: nat, menunggu: nat, disetujui: nat, selesai: nat)

  function RowStatus(p: Row): Status { p.record.status }

  /** `stats`: the number of shown complaints and the count of three of the
      four statuses among them; rejected ones are not counted separately, so
      they make up the difference. */
  function Stats(data: seq<Row>): (s: DashboardStats)
    ensures s.total == |Retained(data)| && s.total <= Shown
    ensures s.menunggu == Tally(Retained(data), RowStatus, Menunggu)
    ensures s.disetujui == Tally(Retained(data), RowStatus, Disetujui)
    ensures s.selesai == Tally(Retained(data), RowStatus, Selesai)
    ensures s.menunggu + s.disetujui + s.selesai + Tally(Retained(data), RowStatus, Ditolak) == s.total
    ensures s.menunggu + s.disetujui + s.selesai <= s.total
  {
    var shown := Retained(data);
    TalliesSum(shown, RowStatus);
    DashboardStats(
      |shown|,
      Tally(shown, RowStatus, Menunggu),
      Tally(shown, RowStatus, Disetujui),
      Tally(shown, RowStatus, Selesai))
  }
}
