/**
 * Worked examples of the opponent models on the takeaway domain: a menu
 * issue (Fish, Chips, Sausage, Pie) and a size issue (Small, Medium, Large).
 * The generic lemmas evaluate the specification on abstract values; the
 * concrete lemmas instantiate them with the counts of the examples.
 */
module OpponentExamples {
  import opened SeqUtil
  import opened Domains
  import opened OpponentFormulas
  import opened OpponentSpec

  // ---------------------------------------------------------------------
  // Evaluating the value sort one insertion at a time
  // ---------------------------------------------------------------------

  lemma SortStep(values: seq<string>, counts: map<string, int>, front: seq<string>)
    requires values != [] && SortByCount(values[..|values| - 1], counts) == front
    ensures SortByCount(values, counts) == InsertByCount(values[|values| - 1], front, counts)
  {
  }

  lemma InsertBehind(v: string, sorted: seq<string>, counts: map<string, int>, rest: seq<string>)
    requires sorted != [] && CountOf(counts, sorted[0]) >= CountOf(counts, v)
    requires InsertByCount(v, sorted[1..], counts) == rest
    ensures InsertByCount(v, sorted, counts) == [sorted[0]] + rest
  {
  }

  lemma InsertHere(v: string, sorted: seq<string>, counts: map<string, int>)
    requires sorted == [] || CountOf(counts, sorted[0]) < CountOf(counts, v)
    ensures InsertByCount(v, sorted, counts) == [v] + sorted
  {
  }

  lemma SortOfOne(a: string, counts: map<string, int>)
    ensures SortByCount([a], counts) == [a]
  {
    SortStep([a], counts, []);
    InsertHere(a, [], counts);
  }

  /** Three values whose counts rank them second, first, third. */
  lemma SortThreeMiddleFirst(a: string, b: string, c: string, counts: map<string, int>)
    requires CountOf(counts, c) <= CountOf(counts, a) < CountOf(counts, b)
    ensures SortByCount([a, b, c], counts) == [b, a, c]
  {
    SortOfOne(a, counts);
    SortStep([a, b], counts, [a]);
    InsertHere(b, [a], counts);
    assert [a, b, c][..2] == [a, b];
    SortStep([a, b, c], counts, [b, a]);
    InsertHere(c, [], counts);
    InsertBehind(c, [a], counts, [c]);
    InsertBehind(c, [b, a], counts, [a, c]);
  }

  /** Three values whose counts rank them third, first, second. */
  lemma SortThreeMiddleLast(a: string, b: string, c: string, counts: map<string, int>)
    requires CountOf(counts, a) < CountOf(counts, c) <= CountOf(counts, b)
    ensures SortByCount([a, b, c], counts) == [b, c, a]
  {
    SortOfOne(a, counts);
    SortStep([a, b], counts, [a]);
    InsertHere(b, [a], counts);
    assert [a, b, c][..2] == [a, b];
    SortStep([a, b, c], counts, [b, a]);
    InsertHere(c, [a], counts);
    InsertBehind(c, [b, a], counts, [c, a]);
  }

  /** Four values already in descending order of count keep their order. */
  lemma SortFourKept(a: string, b: string, c: string, d: string, counts: map<string, int>)
    requires CountOf(counts, a) >= CountOf(counts, b) >= CountOf(counts, c) >= CountOf(counts, d)
    ensures SortByCount([a, b, c, d], counts) == [a, b, c, d]
  {
    SortOfOne(a, counts);
    SortStep([a, b], counts, [a]);
    InsertHere(b, [], counts);
    InsertBehind(b, [a], counts, [b]);
    assert [a, b, c][..2] == [a, b];
    SortStep([a, b, c], counts, [a, b]);
    InsertHere(c, [], counts);
    InsertBehind(c, [b], counts, [c]);
    InsertBehind(c, [a, b], counts, [b, c]);
    assert [a, b, c, d][..3] == [a, b, c];
    SortStep([a, b, c, d], counts, [a, b, c]);
    InsertHere(d, [], counts);
    InsertBehind(d, [c], counts, [d]);
    InsertBehind(d, [b, c], counts, [c, d]);
    InsertBehind(d, [a, b, c], counts, [b, c, d]);
  }

  /** Four values whose counts rank them 4, 2, 1, 3. */
  lemma SortFourThirdFirst(a: string, b: string, c: string, d: string, counts: map<string, int>)
    requires CountOf(counts, a) < CountOf(counts, d) <= CountOf(counts, b) < CountOf(counts, c)
    ensures SortByCount([a, b, c, d], counts) == [c, b, d, a]
  {
    SortOfOne(a, counts);
    SortStep([a, b], counts, [a]);
    InsertHere(b, [a], counts);
    assert [a, b, c][..2] == [a, b];
    SortStep([a, b, c], counts, [b, a]);
    InsertHere(c, [b, a], counts);
    assert [a, b, c, d][..3] == [a, b, c];
    SortStep([a, b, c, d], counts, [c, b, a]);
    InsertHere(d, [a], counts);
    InsertBehind(d, [b, a], counts, [d, a]);
    InsertBehind(d, [c, b, a], counts, [b, d, a]);
  }

  /** Four values whose counts rank them 4, 1, 2, 3. */
  lemma SortFourSecondFirst(a: string, b: string, c: string, d: string, counts: map<string, int>)
    requires CountOf(counts, a) < CountOf(counts, d) <= CountOf(counts, c) <= CountOf(counts, b)
    requires CountOf(counts, a) < CountOf(counts, b)
    ensures SortByCount([a, b, c, d], counts) == [b, c, d, a]
  {
    SortOfOne(a, counts);
    SortStep([a, b], counts, [a]);
    InsertHere(b, [a], counts);
    assert [a, b, c][..2] == [a, b];
    SortStep([a, b, c], counts, [b, a]);
    InsertHere(c, [a], counts);
    InsertBehind(c, [b, a], counts, [c, a]);
    assert [a, b, c, d][..3] == [a, b, c];
    SortStep([a, b, c, d], counts, [b, c, a]);
    InsertHere(d, [a], counts);
    InsertBehind(d, [c, a], counts, [d, a]);
    InsertBehind(d, [b, c, a], counts, [c, d, a]);
  }

  // ---------------------------------------------------------------------
  // Evaluating weights and utilities of small shapes
  // ---------------------------------------------------------------------

  lemma IssueWeightOfThree(a: string, b: string, c: string, counts: map<string, int>, denom: int)
    requires denom != 0
    ensures IssueWeight([a, b, c], counts, denom)
            == WeightFormula(CountOf(counts, a), denom) + WeightFormula(CountOf(counts, b), denom)
               + WeightFormula(CountOf(counts, c), denom)
  {
    assert [a][..0] == [];
    assert IssueWeight([a], counts, denom) == WeightFormula(CountOf(counts, a), denom);
    assert [a, b][..1] == [a];
    assert IssueWeight([a, b], counts, denom) == IssueWeight([a], counts, denom) + WeightFormula(CountOf(counts, b), denom);
    assert [a, b, c][..2] == [a, b];
  }

  lemma IssueWeightOfFour(a: string, b: string, c: string, d: string, counts: map<string, int>, denom: int)
    requires denom != 0
    ensures IssueWeight([a, b, c, d], counts, denom)
            == WeightFormula(CountOf(counts, a), denom) + WeightFormula(CountOf(counts, b), denom)
               + WeightFormula(CountOf(counts, c), denom) + WeightFormula(CountOf(counts, d), denom)
  {
    assert [a, b, c, d][..3] == [a, b, c];
    IssueWeightOfThree(a, b, c, counts, denom);
  }

  function TwoIssues(i1: string, i2: string, vs1: seq<string>, vs2: seq<string>): Shape
  {
    Shape([i1, i2], map[i1 := vs1, i2 := vs2])
  }

  lemma TwoIssuesWellFormed(i1: string, i2: string, vs1: seq<string>, vs2: seq<string>)
    requires i1 != i2 && NoDuplicates(vs1) && NoDuplicates(vs2)
    ensures WellFormed(TwoIssues(i1, i2, vs1, vs2))
  {
  }

  lemma TwoIssueWeights(i1: string, i2: string, vs1: seq<string>, vs2: seq<string>, counts: Counts, denom: int)
    requires i1 != i2 && NoDuplicates(vs1) && NoDuplicates(vs2)
    requires denom != 0
    ensures WellFormed(TwoIssues(i1, i2, vs1, vs2))
    ensures Weights(TwoIssues(i1, i2, vs1, vs2), counts, denom)[i1] == IssueWeight(vs1, Row(counts, i1), denom)
    ensures Weights(TwoIssues(i1, i2, vs1, vs2), counts, denom)[i2] == IssueWeight(vs2, Row(counts, i2), denom)
    ensures TotalWeight(TwoIssues(i1, i2, vs1, vs2), counts, denom)
            == IssueWeight(vs1, Row(counts, i1), denom) + IssueWeight(vs2, Row(counts, i2), denom)
  {
    var sh := TwoIssues(i1, i2, vs1, vs2);
    var w := Weights(sh, counts, denom);
    assert [i1, i2][..1] == [i1];
    assert [i1][..0] == [];
    assert WeightSum(w, [i1]) == w[i1];
  }

  lemma TwoAssignmentUtility(w: map<string, real>, total: real, p: map<string, map<string, real>>, bid: Bid,
                              a1: real, a2: real, q1: real, q2: real)
    requires |bid| == 2 && Covers(w, p, bid) && total != 0.0
    requires w[bid[0].issue] == a1 && w[bid[1].issue] == a2
    requires p[bid[0].issue][bid[0].value] == q1 && p[bid[1].issue][bid[1].value] == q2
    ensures BidUtility(w, total, p, bid) == (a1 / total) * q1 + (a2 / total) * q2
  {
    var front := bid[..1];
    assert front[..0] == [];
    assert BidUtility(w, total, p, front) == (a1 / total) * q1;
    assert bid[..|bid| - 1] == front;
  }

  lemma UtilityUnfolds(variant: Variant, sh: Shape, counts: Counts, denom: int, bid: Bid)
    requires WellFormed(sh) && Knows(sh, bid) && denom > 0
    requires TotalWeight(sh, counts, denom) != 0.0
    ensures Covers(Weights(sh, counts, denom), Preferences(variant, sh, counts, denom), bid)
    ensures Utility(variant, sh, counts, denom, bid)
            == BidUtility(Weights(sh, counts, denom), TotalWeight(sh, counts, denom),
                          Preferences(variant, sh, counts, denom), bid)
  {
  }

  // ---------------------------------------------------------------------
  // The takeaway domain
  // ---------------------------------------------------------------------

  const Menu: seq<string> := ["Fish", "Chips", "Sausage", "Pie"]
  const Sizes: seq<string> := ["Small", "Medium", "Large"]

  function Takeaway(): Shape
  {
    TwoIssues("Menu Item", "Item Size", Menu, Sizes)
  }

  /** The bid (Fish, Large). */
  const FishLarge: Bid := [Assignment(1, "Menu Item", "Fish"), Assignment(2, "Item Size", "Large")]

  /** The bid (Chips, Medium). */
  const ChipsMedium: Bid := [Assignment(1, "Menu Item", "Chips"), Assignment(2, "Item Size", "Medium")]

  lemma TakeawayIsWellFormed()
    ensures NoDuplicates(Menu) && NoDuplicates(Sizes)
    ensures WellFormed(Takeaway())
    ensures Knows(Takeaway(), FishLarge)
  {
    assert NoDuplicates(Menu);
    TwoIssuesWellFormed("Menu Item", "Item Size", Menu, Sizes);
  }

  /** Ranking by count, counts 1, 3, 4, 2: Sausage, Chips, Pie, Fish. */
  lemma SortMenuByCount()
    ensures SortByCount(Menu, map["Fish" := 1, "Chips" := 3, "Sausage" := 4, "Pie" := 2])
            == ["Sausage", "Chips", "Pie", "Fish"]
  {
    SortFourThirdFirst("Fish", "Chips", "Sausage", "Pie", map["Fish" := 1, "Chips" := 3, "Sausage" := 4, "Pie" := 2]);
  }

  /** Jonny Black preferences for counts 1, 3, 4, 2: ranks 4, 2, 1, 3 of 4. */
  lemma MenuRankPreferences()
    ensures var c := map["Fish" := 1, "Chips" := 3, "Sausage" := 4, "Pie" := 2];
            && Preference(JonnyBlack, Menu, c, 10, "Fish") == 0.25
            && Preference(JonnyBlack, Menu, c, 10, "Chips") == 0.75
            && Preference(JonnyBlack, Menu, c, 10, "Sausage") == 1.0
            && Preference(JonnyBlack, Menu, c, 10, "Pie") == 0.5
  {
    var c := map["Fish" := 1, "Chips" := 3, "Sausage" := 4, "Pie" := 2];
    TakeawayIsWellFormed();
    SortMenuByCount();
    RanksAreAPermutation(Menu, c, 10, 0);
    RanksAreAPermutation(Menu, c, 10, 1);
    RanksAreAPermutation(Menu, c, 10, 2);
    RanksAreAPermutation(Menu, c, 10, 3);
  }

  /** Total counts 1, 4, 5, 2 against recent counts 1, 4, 3, 2: in the recent
      window Chips and Sausage swap ranks. */
  lemma RecentRanksSwap()
    ensures var c := map["Fish" := 1, "Chips" := 4, "Sausage" := 5, "Pie" := 2];
            var r := map["Fish" := 1, "Chips" := 4, "Sausage" := 3, "Pie" := 2];
            && Preference(JonnyBlack, Menu, c, 10, "Sausage") == 1.0
            && Preference(JonnyBlack, Menu, c, 10, "Chips") == 0.75
            && Preference(JonnyBlack, Menu, r, 8, "Chips") == 1.0
            && Preference(JonnyBlack, Menu, r, 8, "Sausage") == 0.75
  {
    var c := map["Fish" := 1, "Chips" := 4, "Sausage" := 5, "Pie" := 2];
    var r := map["Fish" := 1, "Chips" := 4, "Sausage" := 3, "Pie" := 2];
    TakeawayIsWellFormed();
    SortFourThirdFirst("Fish", "Chips", "Sausage", "Pie", c);
    SortFourSecondFirst("Fish", "Chips", "Sausage", "Pie", r);
    RanksAreAPermutation(Menu, c, 10, 0);
    RanksAreAPermutation(Menu, c, 10, 1);
    RanksAreAPermutation(Menu, r, 8, 0);
    RanksAreAPermutation(Menu, r, 8, 1);
  }

  /** Agent17 preferences are plain frequencies: counts 1, 3, 4, 2 of 10
      give 0.1, 0.3, 0.4, 0.2. */
  lemma FrequencyPreferenceExample()
    ensures var c := map["Fish" := 1, "Chips" := 3, "Sausage" := 4, "Pie" := 2];
            && Preference(Agent17, Menu, c, 10, "Fish") == 0.1
            && Preference(Agent17, Menu, c, 10, "Chips") == 0.3
            && Preference(Agent17, Menu, c, 10, "Sausage") == 0.4
            && Preference(Agent17, Menu, c, 10, "Pie") == 0.2
  {
  }

  /** Unnormalized issue weights: counts 9, 1 of 10 weigh 82/100, counts
      3, 5, 2 of 10 weigh 38/100 and counts 3, 3, 2 of 8 weigh 0.34375. */
  lemma IssueWeightExamples()
    ensures IssueWeight(Menu, map["Fish" := 9, "Chips" := 1], 10) == 0.82
    ensures IssueWeight(Sizes, map["Small" := 3, "Medium" := 5, "Large" := 2], 10) == 0.38
    ensures IssueWeight(Sizes, map["Small" := 3, "Medium" := 3, "Large" := 2], 8) == 0.34375
  {
    IssueWeightOfFour("Fish", "Chips", "Sausage", "Pie", map["Fish" := 9, "Chips" := 1], 10);
    IssueWeightOfThree("Small", "Medium", "Large", map["Small" := 3, "Medium" := 5, "Large" := 2], 10);
    IssueWeightOfThree("Small", "Medium", "Large", map["Small" := 3, "Medium" := 3, "Large" := 2], 8);
  }

  /** Counts over 10 bids: Fish 9, Chips 1; Small 3, Medium 5, Large 2. */
  function TotalCounts(): Counts
  {
    map["Menu Item" := map["Fish" := 9, "Chips" := 1, "Sausage" := 0, "Pie" := 0],
        "Item Size" := map["Small" := 3, "Medium" := 5, "Large" := 2]]
  }

  /** The counts of the last 6 of those bids, once 4 Fish, 2 Small and
      2 Medium have left the window. */
  function RecentCounts(): Counts
  {
    map["Menu Item" := map["Fish" := 5, "Chips" := 1, "Sausage" := 0, "Pie" := 0],
        "Item Size" := map["Small" := 1, "Medium" := 3, "Large" := 2]]
  }

  /** The menu's weight for counts f, c, s, p of the four items. */
  lemma MenuWeight(m: map<string, int>, denom: int, f: int, c: int, s: int, p: int)
    requires denom != 0
    requires m == map["Fish" := f, "Chips" := c, "Sausage" := s, "Pie" := p]
    ensures IssueWeight(Menu, m, denom)
            == WeightFormula(f, denom) + WeightFormula(c, denom) + WeightFormula(s, denom) + WeightFormula(p, denom)
  {
    assert CountOf(m, "Fish") == f && CountOf(m, "Chips") == c;
    assert CountOf(m, "Sausage") == s && CountOf(m, "Pie") == p;
    IssueWeightOfFour("Fish", "Chips", "Sausage", "Pie", m, denom);
  }

  /** The size's weight for counts s, m, l of the three sizes. */
  lemma SizeWeight(r: map<string, int>, denom: int, s: int, m: int, l: int)
    requires denom != 0
    requires r == map["Small" := s, "Medium" := m, "Large" := l]
    ensures IssueWeight(Sizes, r, denom) == WeightFormula(s, denom) + WeightFormula(m, denom) + WeightFormula(l, denom)
  {
    assert CountOf(r, "Small") == s && CountOf(r, "Medium") == m && CountOf(r, "Large") == l;
    IssueWeightOfThree("Small", "Medium", "Large", r, denom);
  }

  /** The two issue weights of the takeaway domain and their total. */
  lemma TakeawayWeights(counts: Counts, denom: int, menu: real, size: real)
    requires denom != 0
    requires IssueWeight(Menu, Row(counts, "Menu Item"), denom) == menu
    requires IssueWeight(Sizes, Row(counts, "Item Size"), denom) == size
    ensures WellFormed(Takeaway())
    ensures Weights(Takeaway(), counts, denom)["Menu Item"] == menu
    ensures Weights(Takeaway(), counts, denom)["Item Size"] == size
    ensures TotalWeight(Takeaway(), counts, denom) == menu + size
  {
    TakeawayIsWellFormed();
    TwoIssueWeights("Menu Item", "Item Size", Menu, Sizes, counts, denom);
  }

  /** The issue weights over all 10 bids: 81/100 + 1/100 and 9/100 + 25/100 + 4/100. */
  lemma TotalIssueWeights()
    ensures IssueWeight(Menu, Row(TotalCounts(), "Menu Item"), 10) == 0.82
    ensures IssueWeight(Sizes, Row(TotalCounts(), "Item Size"), 10) == 0.38
  {
    MenuWeight(Row(TotalCounts(), "Menu Item"), 10, 9, 1, 0, 0);
    SizeWeight(Row(TotalCounts(), "Item Size"), 10, 3, 5, 2);
  }

  /** The issue weights over the window of 6: 25/36 + 1/36 and 1/36 + 9/36 + 4/36. */
  lemma RecentIssueWeights()
    ensures IssueWeight(Menu, Row(RecentCounts(), "Menu Item"), 6) == 26.0 / 36.0
    ensures IssueWeight(Sizes, Row(RecentCounts(), "Item Size"), 6) == 14.0 / 36.0
  {
    MenuWeight(Row(RecentCounts(), "Menu Item"), 6, 5, 1, 0, 0);
    SizeWeight(Row(RecentCounts(), "Item Size"), 6, 1, 3, 2);
  }

  lemma TotalWeights()
    ensures WellFormed(Takeaway())
    ensures Weights(Takeaway(), TotalCounts(), 10)["Menu Item"] == 0.82
    ensures Weights(Takeaway(), TotalCounts(), 10)["Item Size"] == 0.38
    ensures TotalWeight(Takeaway(), TotalCounts(), 10) == 1.2
  {
    TotalIssueWeights();
    TakeawayWeights(TotalCounts(), 10, 0.82, 0.38);
  }

  lemma RecentWeights()
    ensures WellFormed(Takeaway())
    ensures Weights(Takeaway(), RecentCounts(), 6)["Menu Item"] == 26.0 / 36.0
    ensures Weights(Takeaway(), RecentCounts(), 6)["Item Size"] == 14.0 / 36.0
    ensures TotalWeight(Takeaway(), RecentCounts(), 6) == 40.0 / 36.0
  {
    RecentIssueWeights();
    TakeawayWeights(RecentCounts(), 6, 26.0 / 36.0, 14.0 / 36.0);
  }

  /** The utility of (Fish, Large) in the takeaway domain, from the two
      issue weights and the preferences of Fish and Large. */
  lemma TakeawayUtility(variant: Variant, counts: Counts, denom: int, menu: real, size: real, fish: real, large: real,
                         u: real)
    requires denom > 0
    requires IssueWeight(Menu, Row(counts, "Menu Item"), denom) == menu
    requires IssueWeight(Sizes, Row(counts, "Item Size"), denom) == size
    requires menu + size != 0.0
    requires Preference(variant, Menu, Row(counts, "Menu Item"), denom, "Fish") == fish
    requires Preference(variant, Sizes, Row(counts, "Item Size"), denom, "Large") == large
    requires (menu / (menu + size)) * fish + (size / (menu + size)) * large == u
    ensures WellFormed(Takeaway()) && Knows(Takeaway(), FishLarge)
    ensures TotalWeight(Takeaway(), counts, denom) == menu + size
    ensures Utility(variant, Takeaway(), counts, denom, FishLarge) == u
  {
    TakeawayWeights(counts, denom, menu, size);
    TakeawayIsWellFormed();
    var w := Weights(Takeaway(), counts, denom);
    var total := TotalWeight(Takeaway(), counts, denom);
    var p := Preferences(variant, Takeaway(), counts, denom);
    UtilityUnfolds(variant, Takeaway(), counts, denom, FishLarge);
    assert p["Menu Item"]["Fish"] == fish;
    assert p["Item Size"]["Large"] == large;
    TwoAssignmentUtility(w, total, p, FishLarge, menu, size, fish, large);
    SharesOfTotal(menu, size, total, fish, large, u);
  }

  /** The weighted sum does not depend on how the total is written. */
  lemma SharesOfTotal(menu: real, size: real, total: real, fish: real, large: real, u: real)
    requires total == menu + size && total != 0.0
    requires (menu / (menu + size)) * fish + (size / (menu + size)) * large == u
    ensures (menu / total) * fish + (size / total) * large == u
  {
  }

  /** Agent17 over all 10 bids: (82/120)(9/10) + (38/120)(2/10) = 407/600. */
  lemma Agent17Utility()
    ensures WellFormed(Takeaway()) && Knows(Takeaway(), FishLarge)
    ensures TotalWeight(Takeaway(), TotalCounts(), 10) == 1.2
    ensures Utility(Agent17, Takeaway(), TotalCounts(), 10, FishLarge) == 407.0 / 600.0
  {
    assert (0.82 / (0.82 + 0.38)) * 0.9 + (0.38 / (0.82 + 0.38)) * 0.2 == 407.0 / 600.0;
    TotalIssueWeights();
    assert CountOf(Row(TotalCounts(), "Menu Item"), "Fish") == 9 && CountOf(Row(TotalCounts(), "Item Size"), "Large") == 2;
    TakeawayUtility(Agent17, TotalCounts(), 10, 0.82, 0.38, 0.9, 0.2, 407.0 / 600.0);
  }

  lemma JonnyBlackTotalPreferences()
    ensures Preference(JonnyBlack, Menu, Row(TotalCounts(), "Menu Item"), 10, "Fish") == 1.0
    ensures Preference(JonnyBlack, Sizes, Row(TotalCounts(), "Item Size"), 10, "Large") == 1.0 / 3.0
  {
    var m := Row(TotalCounts(), "Menu Item");
    var s := Row(TotalCounts(), "Item Size");
    TakeawayIsWellFormed();
    SortFourKept("Fish", "Chips", "Sausage", "Pie", m);
    SortThreeMiddleFirst("Small", "Medium", "Large", s);
    RanksAreAPermutation(Menu, m, 10, 0);
    RanksAreAPermutation(Sizes, s, 10, 2);
  }

  /** Jonny Black over all 10 bids: Fish ranks 1 of 4 and Large 3 of 3, so
      (82/120)(1) + (38/120)(1/3) = 71/90. */
  lemma JonnyBlackUtility()
    ensures WellFormed(Takeaway()) && Knows(Takeaway(), FishLarge)
    ensures TotalWeight(Takeaway(), TotalCounts(), 10) == 1.2
    ensures Utility(JonnyBlack, Takeaway(), TotalCounts(), 10, FishLarge) == 71.0 / 90.0
  {
    assert (0.82 / (0.82 + 0.38)) * 1.0 + (0.38 / (0.82 + 0.38)) * (1.0 / 3.0) == 71.0 / 90.0;
    TotalIssueWeights();
    JonnyBlackTotalPreferences();
    TakeawayUtility(JonnyBlack, TotalCounts(), 10, 0.82, 0.38, 1.0, 1.0 / 3.0, 71.0 / 90.0);
  }

  /** Agent17 over a window of 6: (26/40)(5/6) + (14/40)(2/6) = 79/120. */
  lemma Agent17RecentUtility()
    ensures WellFormed(Takeaway()) && Knows(Takeaway(), FishLarge)
    ensures TotalWeight(Takeaway(), RecentCounts(), 6) == 40.0 / 36.0
    ensures Utility(Agent17, Takeaway(), RecentCounts(), 6, FishLarge) == 79.0 / 120.0
  {
    assert (26.0 / 36.0 / (26.0 / 36.0 + 14.0 / 36.0)) * (5.0 / 6.0) + (14.0 / 36.0 / (26.0 / 36.0 + 14.0 / 36.0)) * (2.0 / 6.0)
           == 79.0 / 120.0;
    RecentIssueWeights();
    assert CountOf(Row(RecentCounts(), "Menu Item"), "Fish") == 5 && CountOf(Row(RecentCounts(), "Item Size"), "Large") == 2;
    TakeawayUtility(Agent17, RecentCounts(), 6, 26.0 / 36.0, 14.0 / 36.0, 5.0 / 6.0, 2.0 / 6.0, 79.0 / 120.0);
  }

  lemma JonnyBlackRecentPreferences()
    ensures Preference(JonnyBlack, Menu, Row(RecentCounts(), "Menu Item"), 6, "Fish") == 1.0
    ensures Preference(JonnyBlack, Sizes, Row(RecentCounts(), "Item Size"), 6, "Large") == 2.0 / 3.0
  {
    var m := Row(RecentCounts(), "Menu Item");
    var s := Row(RecentCounts(), "Item Size");
    TakeawayIsWellFormed();
    SortFourKept("Fish", "Chips", "Sausage", "Pie", m);
    SortThreeMiddleLast("Small", "Medium", "Large", s);
    RanksAreAPermutation(Menu, m, 6, 0);
    RanksAreAPermutation(Sizes, s, 6, 1);
  }

  /** Jonny Black over a window of 6: Large now ranks 2 of 3, so
      (26/40)(1) + (14/40)(2/3) = 53/60. */
  lemma JonnyBlackRecentUtility()
    ensures WellFormed(Takeaway()) && Knows(Takeaway(), FishLarge)
    ensures TotalWeight(Takeaway(), RecentCounts(), 6) == 40.0 / 36.0
    ensures Utility(JonnyBlack, Takeaway(), RecentCounts(), 6, FishLarge) == 53.0 / 60.0
  {
    assert (26.0 / 36.0 / (26.0 / 36.0 + 14.0 / 36.0)) * 1.0 + (14.0 / 36.0 / (26.0 / 36.0 + 14.0 / 36.0)) * (2.0 / 3.0)
           == 53.0 / 60.0;
    RecentIssueWeights();
    JonnyBlackRecentPreferences();
    TakeawayUtility(JonnyBlack, RecentCounts(), 6, 26.0 / 36.0, 14.0 / 36.0, 1.0, 2.0 / 3.0, 53.0 / 60.0);
  }

  /** Eleven bids, (Fish, Large) first and then ten (Chips, Medium), with the
      default window of 10: the first bid has left every recent count but is
      still in the total counts. */
  lemma FirstBidLeavesWindow()
    ensures Tally([FishLarge] + seq(10, _ => ChipsMedium), "Menu Item", "Fish") == 1
    ensures Tally(Window([FishLarge] + seq(10, _ => ChipsMedium), 10), "Menu Item", "Fish") == 0
    ensures Tally(Window([FishLarge] + seq(10, _ => ChipsMedium), 10), "Menu Item", "Chips") == 10
  {
    var others := seq(10, _ => ChipsMedium);
    var bids := [FishLarge] + others;
    assert Window(bids, 10) == others;
    TallyAppend([FishLarge], others, "Menu Item", "Fish");
    assert [FishLarge][..0] == [];
    ChipsMediumTally(10);
  }

  lemma {:induction false} ChipsMediumTally(n: nat)
    ensures Tally(seq(n, _ => ChipsMedium), "Menu Item", "Fish") == 0
    ensures Tally(seq(n, _ => ChipsMedium), "Menu Item", "Chips") == n
  {
    if n > 0 {
      assert seq(n, _ => ChipsMedium)[..n - 1] == seq(n - 1, _ => ChipsMedium);
      ChipsMediumTally(n - 1);
      assert ChipsMedium[..1][..0] == [];
    }
  }
}
