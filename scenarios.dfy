/** Worked examples: a two-row table of one city, and a load that meets an unknown city. */
module Scenarios {
  import opened Wrappers
  import opened Seqs
  import opened Strings
  import opened Reviews
  import opened Loading
  import opened Aggregates
  import opened Ranking
  import opened Dashboard

  /** Two Delhi orders by different agents, rated 4.5 and 2.0, both at `c`. */
  function TwoDelhiRows(c: Coord): seq<Row>
  {
    [Row(Review("X", "Delhi", "Express", 4.5), c), Row(Review("Y", "Delhi", "Standard", 2.0), c)]
  }

  lemma TwoDelhiColumns(c: Coord)
    ensures Locations(TwoDelhiRows(c)) == ["Delhi", "Delhi"]
    ensures Agents(TwoDelhiRows(c)) == ["X", "Y"]
    ensures OrderTypes(TwoDelhiRows(c)) == ["Express", "Standard"]
    ensures Mean(TwoDelhiRows(c)) == 3.25
  {
    var rows := TwoDelhiRows(c);
    assert SumRatings(rows[1..]) == 2.0;
  }

  /** With no filter the map statistics hold one entry: Delhi, two orders, mean 3.25. */
  lemma DelhiStats(c: Coord)
    ensures CityStats(FilterFrame(TwoDelhiRows(c), "All", "All")) == [CityStat("Delhi", 3.25, c, 2)]
  {
    var rows := TwoDelhiRows(c);
    TwoDelhiColumns(c);
    assert FilterFrame(rows, "All", "All") == rows;
    var r := CityStats(rows);
    OnlyDelhi(r, rows);
    DelhiGroup(c);
    assert r[0] == StatFor(rows, "Delhi");
  }

  lemma OnlyDelhi(r: seq<CityStat>, rows: seq<Row>)
    requires Locations(rows) == ["Delhi", "Delhi"]
    requires r == CityStats(rows)
    ensures |r| == 1 && r[0].location == "Delhi"
  {
    var locs := StatLocations(r);
    assert "Delhi" in locs;
    AscendingNoDup(locs);
    forall i | 0 <= i < |locs| ensures locs[i] == "Delhi" {
      assert locs[i] in locs;
    }
    assert ToSet(locs) == {"Delhi"};
    NoDupCardinality(locs);
  }

  lemma DelhiGroup(c: Coord)
    ensures Group(TwoDelhiRows(c), "Delhi") == TwoDelhiRows(c)
  {
    var rows := TwoDelhiRows(c);
    forall x | x in rows ensures KeyIs(Location, "Delhi")(x) {
      assert Location(x) == "Delhi";
    }
    WhereAll(rows, KeyIs(Location, "Delhi"));
  }

  /** The summary of the same rows: two orders, one city, two agents, and of the two order types
      seen once each, the one that sorts first. */
  lemma DelhiSummary(c: Coord)
    ensures Summarize(TwoDelhiRows(c)) == Summary(2, Some(3.25), 1, 2, "Express")
  {
    TwoDelhiColumns(c);
    DelhiDistinctCounts();
    ExpressIsMode();
  }

  lemma DelhiDistinctCounts()
    ensures CountDistinct(["Delhi", "Delhi"]) == 1
    ensures CountDistinct(["X", "Y"]) == 2
  {
    assert ToSet(["Delhi", "Delhi"]) == {"Delhi"};
    assert ToSet(["X", "Y"]) == {"X", "Y"};
  }

  lemma ExpressIsMode()
    ensures Mode(["Express", "Standard"]) == "Express"
  {
    var types := ["Express", "Standard"];
    var m := Mode(types);
    assert Occ(types, "Express") == 1 && Occ(types, "Standard") == 1;
    assert m == "Express" || m == "Standard";
  }

  /** A row from a city outside the static table makes the load fail with that city. */
  lemma UnknownCityFails()
    ensures AttachCoordinates([Review("X", "Delhi", "Express", 4.0), Review("Z", "Atlantis", "Express", 3.0)])
         == Failure(UnknownLocation("Atlantis"))
  {
  }
}
