/** The staff member's complaint history: search with a status filter, and
    the numbered table of what is kept. */
module GuruRiwayatPage {
  import opened Domain
  import opened Seqs
  import opened Texts
  import PengaduanRoute

  type Row = PengaduanRoute.PengaduanRow

  /** The siswa's name or the description contains the term, and the status
      filter is off or equal to the complaint's status. */
  predicate Matches(p: Row, term: Text, status: Text)
  {
    (ContainsIgnoringCase(p.siswa.nama, term) || ContainsIgnoringCase(p.record.deskripsi, term))
    && (status == "" || StatusName(p.record.status) == status)
  }

  function Keep(term: Text, status: Text): Row -> bool
  {
    (p: Row) => Matches(p, term, status)
  }

  /** `filteredPengaduan`, in the fetched order; with an empty term and no
      status filter every row is kept. */
  function Filtered(ps: seq<Row>, term: Text, status: Text): (r: seq<Row>)
    ensures forall p :: p in r <==> p in ps && Matches(p, term, status)
    ensures IsSubsequence(r, ps)
    ensures term == "" && status == "" ==> r == ps
  {
    var r := Filter(ps, Keep(term, status));
    assert forall p :: p in r <==> p in ps && Matches(p, term, status) by {
      forall p ensures p in r <==> p in ps && Matches(p, term, status) {
        FilterMembers(ps, Keep(term, status), p);
        assert Keep(term, status)(p) == Matches(p, term, status);
      }
    }
    FilterIsSubsequence(ps, Keep(term, status));
    NoFilterKeepsAll(ps);
    r
  }

  lemma NoFilterKeepsAll(ps: seq<Row>)
    ensures Filter(ps, Keep("", "")) == ps
  {
    forall i | 0 <= i < |ps| ensures Keep("", "")(ps[i]) {
      EmptyTermMatches(ps[i].siswa.nama);
      assert Keep("", "")(ps[i]) == Matches(ps[i], "", "");
    }
    FilterKeepsAll(ps, Keep("", ""));
  }

  /** A table row: the number in the first column and the complaint. */
  datatype NumberedRow = NumberedRow(number: int, row: Row)

  /** `filteredPengaduan.map((p, index) => ... index + 1 ...)`. */
  function Numbered(rows: seq<Row>): (r: seq<NumberedRow>)
    ensures |r| == |rows|
    ensures forall i :: 0 <= i < |r| ==> r[i].row == rows[i]
    ensures forall i :: 0 <= i < |r| ==> 1 <= r[i].number <= |rows|
    ensures forall i, j :: 0 <= i < j < |r| ==> r[i].number < r[j].number
  {
    seq(|rows|, i requires 0 <= i < |rows| => NumberedRow(i + 1, rows[i]))
  }

  /** The numbers shown are exactly 1 to n; being strictly increasing, each
      appears on one row only. */
  lemma NumbersAreOneToN(rows: seq<Row>, k: int)
    ensures (exists i :: 0 <= i < |rows| && Numbered(rows)[i].number == k) <==> 1 <= k <= |rows|
  {
    if 1 <= k <= |rows| {
      assert Numbered(rows)[k - 1].number == k;
    }
  }
}
