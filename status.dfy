/** Per-status tallies, shared by the statistics route and the staff dashboard. */
module StatusTally {
  import opened Domain
  import opened Seqs

  /** The filter `x => status(x) === s`. */
  function WithStatus<T>(statusOf: T -> Status, s: Status): T -> bool
  {
    (x: T) => statusOf(x) == s
  }

  /** The number of elements whose status is `s`. */
  function Tally<T>(xs: seq<T>, statusOf: T -> Status, s: Status): nat
  {
    Count(xs, WithStatus(statusOf, s))
  }

  function StatusesOf<T>(xs: seq<T>, statusOf: T -> Status): (r: seq<Status>)
    ensures |r| == |xs|
    ensures forall i :: 0 <= i < |xs| ==> r[i] == statusOf(xs[i])
  {
    seq(|xs|, i requires 0 <= i < |xs| => statusOf(xs[i]))
  }

  lemma TallyCons<T>(xs: seq<T>, statusOf: T -> Status, s: Status)
    requires |xs| > 0
    ensures Tally(xs, statusOf, s) == (if statusOf(xs[0]) == s then 1 else 0) + Tally(xs[1..], statusOf, s)
  {
  }

  /** A tally is the multiplicity of the status among the elements' statuses. */
  lemma {:induction false} TallyIsMultiplicity<T>(xs: seq<T>, statusOf: T -> Status, s: Status)
    ensures Tally(xs, statusOf, s) == multiset(StatusesOf(xs, statusOf))[s]
    decreases |xs|
  {
    if |xs| > 0 {
      TallyIsMultiplicity(xs[1..], statusOf, s);
      TallyCons(xs, statusOf, s);
      assert StatusesOf(xs, statusOf) == [statusOf(xs[0])] + StatusesOf(xs[1..], statusOf);
    }
  }

  /** Every element has exactly one of the four statuses, so the four tallies
      add up to the number of elements. */
  lemma {:induction false} TalliesSum<T>(xs: seq<T>, statusOf: T -> Status)
    ensures Tally(xs, statusOf, Menunggu) + Tally(xs, statusOf, Disetujui)
          + Tally(xs, statusOf, Ditolak) + Tally(xs, statusOf, Selesai) == |xs|
    decreases |xs|
  {
    if |xs| > 0 {
      TalliesSum(xs[1..], statusOf);
      TallyCons(xs, statusOf, Menunggu);
      TallyCons(xs, statusOf, Disetujui);
      TallyCons(xs, statusOf, Ditolak);
      TallyCons(xs, statusOf, Selesai);
    }
  }
}

/** `getStatusColor`: the badge class of a status. The admin complaint page,
    the staff history page and the staff dashboard each carry the same copy. */
module StatusBadge {
  import opened Domain

  const Gray: Text := "bg-gray-100 text-gray-800"

  function StatusColor(status: Text): (c: Text)
    ensures c == Gray <==> ParseStatus(status).None?
  {
    if status == "Menunggu" then "bg-yellow-100 text-yellow-800"
    else if status == "Disetujui" then "bg-blue-100 text-blue-800"
    else if status == "Ditolak" then "bg-red-100 text-red-800"
    else if status == "Selesai" then "bg-green-100 text-green-800"
    else Gray
  }

  /** The four statuses get four different badges. */
  lemma StatusColorsDistinct(s: Status, t: Status)
    ensures StatusColor(StatusName(s)) == StatusColor(StatusName(t)) <==> s == t
  {
  }
}
