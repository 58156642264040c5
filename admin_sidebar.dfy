/** The admin sidebar's list of expanded menu groups. */
module AdminSidebar {
  import opened Domain
  import opened Seqs

  /** `useState(["Data Master"])`: the one group open at first. */
  function InitialOpenMenus(): (r: seq<Text>)
    ensures "Data Master" in r && |r| == 1
  {
    ["Data Master"]
  }

  function OtherThan(name: Text): Text -> bool
  {
    (x: Text) => x != name
  }

  /** `toggleMenu(name)`: drop every occurrence of an open name, or append a
      closed one. */
  function Toggle(open: seq<Text>, name: Text): (r: seq<Text>)
    ensures name in r <==> name !in open
    ensures forall x :: x != name ==> (x in r <==> x in open)
    ensures name !in open ==> r == open + [name]
  {
    if name in open then
      var r := Filter(open, OtherThan(name));
      assert forall x :: x in r <==> x in open && x != name by {
        forall x ensures x in r <==> x in open && x != name {
          FilterMembers(open, OtherThan(name), x);
          assert OtherThan(name)(x) == (x != name);
        }
      }
      r
    else open + [name]
  }

  /** Toggling leaves the other open names in their order. */
  lemma ToggleKeepsOthers(open: seq<Text>, name: Text)
    ensures Filter(Toggle(open, name), OtherThan(name)) == Filter(open, OtherThan(name))
  {
    if name in open {
      var r := Filter(open, OtherThan(name));
      forall i | 0 <= i < |r| ensures OtherThan(name)(r[i]) {
        assert OtherThan(name)(r[i]) == (r[i] != name);
      }
      FilterKeepsAll(r, OtherThan(name));
    } else {
      FilterAppend(open, [name], OtherThan(name));
      assert OtherThan(name)(name) == false;
      assert [name][1..] == [];
    }
  }

  /** Opening a closed group and closing it again gives back the list. */
  lemma ToggleTwiceRestores(open: seq<Text>, name: Text)
    requires name !in open
    ensures Toggle(Toggle(open, name), name) == open
  {
    var once := open + [name];
    assert name in once;
    FilterAppend(open, [name], OtherThan(name));
    assert OtherThan(name)(name) == false;
    assert [name][1..] == [];
    forall i | 0 <= i < |open| ensures OtherThan(name)(open[i]) {
      assert OtherThan(name)(open[i]) == (open[i] != name);
    }
    FilterKeepsAll(open, OtherThan(name));
  }

  function TextKey(t: Text): Text { t }

  /** A list without repeats stays without repeats. */
  lemma ToggleKeepsDistinct(open: seq<Text>, name: Text)
    requires forall i, j :: 0 <= i < j < |open| ==> open[i] != open[j]
    ensures var r := Toggle(open, name); forall i, j :: 0 <= i < j < |r| ==> r[i] != r[j]
  {
    assert DistinctBy(open, TextKey) by {
      forall i, j | 0 <= i < |open| && 0 <= j < |open| && i != j ensures TextKey(open[i]) != TextKey(open[j]) {
        if i < j { assert open[i] != open[j]; } else { assert open[j] != open[i]; }
      }
    }
    if name in open {
      FilterKeepsDistinct(open, OtherThan(name), TextKey);
    } else {
      DistinctByAppend(open, name, TextKey);
    }
    var r := Toggle(open, name);
    forall i, j | 0 <= i < j < |r| ensures r[i] != r[j] {
      assert TextKey(r[i]) != TextKey(r[j]);
    }
  }
}
