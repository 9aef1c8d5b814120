/** The "Redeem Your Points" catalogue: the tab filter, the tab counts
    recomputed from the catalogue, and which reward buttons are enabled. */
module RedeemRewards {
  import opened Oracle

  const AllRewards := "All Rewards"
  const Unlocked := "Unlocked"
  const Locked := "Locked"
  const ComingSoon := "Coming Soon"

  /** A catalogue entry. The icon is decoration and is not kept; `category`
      is carried but never read. */
  datatype Reward = Reward(title: string, desc: string, points: nat, stat: string, category: string)

  datatype Tab = Tab(name: string, count: nat)

  /** The tabs with their written-in counts. */
  const InitialTabs: seq<Tab> := [Tab(AllRewards, 8), Tab(Unlocked, 0), Tab(Locked, 7), Tab(ComingSoon, 1)]

  const Catalogue: seq<Reward> := [
    Reward("$5 Bank Transfer", "The $5 equivalent will be transferred to your bank account.", 5000, Locked, "Locked"),
    Reward("$5 PayPal International", "Receive a $5 PayPal balance transfer directly to your PayPal account email.", 5000, Unlocked, "UnLocked"),
    Reward("$5 Virtual Visa Card", "Use your $5 prepaid card to shop anywhere Visa is accepted online.", 5000, Locked, "Locked"),
    Reward("$5 Apple Gift Card", "Redeem this $5 Apple Gift Card for apps, games, music, movies, and more.", 5000, Locked, "Locked"),
    Reward("$5 Google Play Card", "Use this $5 Google Play Card to purchase apps, games, movies, books, and more.", 5000, Locked, "Locked"),
    Reward("$5 Amazon Gift Card", "Get a $5 digital gift card to spend on your favorite tools or platforms.", 5000, Locked, "Locked"),
    Reward("$10 Amazon Gift Card", "Get a $10 digital gift card to spend on your favorite tools or platforms.", 10000, Locked, "Locked"),
    Reward("Free Udemy Course", "Coming Soon!", 0, ComingSoon, "Coming Soon")
  ]

  /** A tab that filters by status. */
  predicate IsStatusTab(tab: string) {
    tab == Unlocked || tab == Locked || tab == ComingSoon
  }

  /** The entries whose status is `stat`, in catalogue order. */
  function WithStat(rs: seq<Reward>, stat: string): (r: seq<Reward>)
    ensures |r| <= |rs|
    ensures forall k :: 0 <= k < |r| ==> r[k].stat == stat
    ensures forall x :: x in r <==> x in rs && x.stat == stat
    ensures IsSubsequence(r, rs)
  {
    if rs == [] then []
    else
      var rest := WithStat(rs[1..], stat);
      assert forall x :: x in rs <==> x == rs[0] || x in rs[1..];
      if rs[0].stat == stat then [rs[0]] + rest
      else if rest == [] then rest
      else
        SubsequenceOfTail(rest, rs);
        rest
  }

  /** The filter keeps every copy of a matching entry and no copy of any
      other, so equal entries are never merged. */
  lemma {:induction false} WithStatMultiset(rs: seq<Reward>, stat: string)
    ensures forall x :: multiset(WithStat(rs, stat))[x] == (if x.stat == stat then multiset(rs)[x] else 0)
  {
    if rs != [] {
      WithStatMultiset(rs[1..], stat);
      assert rs == [rs[0]] + rs[1..];
      assert multiset(rs) == multiset{rs[0]} + multiset(rs[1..]);
    }
  }

  /** `filteredRewards`: a status tab shows the entries with that status;
      "All Rewards" and any other label show the whole catalogue. */
  function FilteredRewards(rs: seq<Reward>, activeTab: string): (r: seq<Reward>)
    ensures IsStatusTab(activeTab) ==> forall x :: x in r <==> x in rs && x.stat == activeTab
    ensures !IsStatusTab(activeTab) ==> r == rs
    ensures IsSubsequence(r, rs)
  {
    if IsStatusTab(activeTab) then WithStat(rs, activeTab)
    else
      SubsequenceRefl(rs);
      rs
  }

  /** A status tab shows each matching entry as often as the catalogue holds it. */
  lemma FilteredRewardsMultiset(rs: seq<Reward>, activeTab: string)
    requires IsStatusTab(activeTab)
    ensures forall x :: multiset(FilteredRewards(rs, activeTab))[x] == (if x.stat == activeTab then multiset(rs)[x] else 0)
  {
    WithStatMultiset(rs, activeTab);
  }


  lemma {:induction false} SubsequenceRefl(s: seq<Reward>)
    ensures IsSubsequence(s, s)
  {
    if s != [] {
      SubsequenceRefl(s[1..]);
    }
  }

  /** The count a tab shows: the catalogue size for "All Rewards", the
      number of entries with the status for a status tab, 0 otherwise. */
  function TabCount(rs: seq<Reward>, tab: string): (n: nat)
    ensures tab == AllRewards || IsStatusTab(tab) ==> n == |FilteredRewards(rs, tab)|
    ensures !(tab == AllRewards || IsStatusTab(tab)) ==> n == 0
  {
    if tab == AllRewards then |rs|
    else if IsStatusTab(tab) then |WithStat(rs, tab)|
    else 0
  }

  /** `updatedTabs`: every tab keeps its label and gets its count from the
      catalogue; the written-in counts are discarded. */
  function UpdatedTabs(tabs: seq<Tab>, rs: seq<Reward>): (r: seq<Tab>)
    ensures |r| == |tabs|
    ensures forall k :: 0 <= k < |r| ==> r[k].name == tabs[k].name && r[k].count == TabCount(rs, tabs[k].name)
  {
    if tabs == [] then []
    else [Tab(tabs[0].name, TabCount(rs, tabs[0].name))] + UpdatedTabs(tabs[1..], rs)
  }

  /** For the catalogue as shipped the tabs read 8, 1, 6 and 1, where the
      written-in counts were 8, 0, 7 and 1. */
  lemma CatalogueTabs()
    ensures var r := UpdatedTabs(InitialTabs, Catalogue);
      |r| == 4 && r[0] == Tab(AllRewards, 8) && r[1] == Tab(Unlocked, 1)
      && r[2] == Tab(Locked, 6) && r[3] == Tab(ComingSoon, 1)
    ensures var r := UpdatedTabs(InitialTabs, Catalogue);
      r[1].count != InitialTabs[1].count && r[2].count != InitialTabs[2].count
  {
    CatalogueTab(1, Unlocked, 1);
    CatalogueTab(2, Locked, 6);
    CatalogueTab(3, ComingSoon, 1);
  }

  /** The status tab at position `k` counts `n` catalogue entries. */
  lemma CatalogueTab(k: nat, stat: string, n: nat)
    requires (k, stat, n) in {(1, Unlocked, 1), (2, Locked, 6), (3, ComingSoon, 1)}
    ensures k < |UpdatedTabs(InitialTabs, Catalogue)| && UpdatedTabs(InitialTabs, Catalogue)[k] == Tab(stat, n)
  {
    if k == 1 {
      CatalogueCountUnlocked();
    } else if k == 2 {
      CatalogueCountLocked();
    } else {
      CatalogueCountComingSoon();
    }
  }

  /** One entry of a list adds one to its own status's count. */
  lemma WithStatStep(rs: seq<Reward>, stat: string)
    requires rs != []
    ensures |WithStat(rs, stat)| == |WithStat(rs[1..], stat)| + (if rs[0].stat == stat then 1 else 0)
  {
  }

  /** Entry `i` of the catalogue adds one to its own status's count. */
  lemma CatalogueStep(i: nat, stat: string)
    requires i < |Catalogue|
    ensures |WithStat(Catalogue[i..], stat)| == |WithStat(Catalogue[i + 1..], stat)| + (if Catalogue[i].stat == stat then 1 else 0)
  {
    WithStatStep(Catalogue[i..], stat);
    assert Catalogue[i..][1..] == Catalogue[i + 1..];
  }

  lemma CatalogueCountUnlocked()
    ensures |WithStat(Catalogue, Unlocked)| == 1
  {
    CatalogueTailUnlocked();
    CatalogueStep(3, Unlocked);
    CatalogueStep(2, Unlocked);
    CatalogueStep(1, Unlocked);
    CatalogueStep(0, Unlocked);
    assert Catalogue[0..] == Catalogue;
  }

  lemma CatalogueTailUnlocked()
    ensures |WithStat(Catalogue[4..], Unlocked)| == 0
  {
    assert Catalogue[8..] == [];
    CatalogueStep(7, Unlocked);
    CatalogueStep(6, Unlocked);
    CatalogueStep(5, Unlocked);
    CatalogueStep(4, Unlocked);
  }

  lemma CatalogueCountLocked()
    ensures |WithStat(Catalogue, Locked)| == 6
  {
    CatalogueTailLocked();
    CatalogueStep(3, Locked);
    CatalogueStep(2, Locked);
    CatalogueStep(1, Locked);
    CatalogueStep(0, Locked);
    assert Catalogue[0..] == Catalogue;
  }

  lemma CatalogueTailLocked()
    ensures |WithStat(Catalogue[4..], Locked)| == 3
  {
    assert Catalogue[8..] == [];
    CatalogueStep(7, Locked);
    CatalogueStep(6, Locked);
    CatalogueStep(5, Locked);
    CatalogueStep(4, Locked);
  }

  lemma CatalogueCountComingSoon()
    ensures |WithStat(Catalogue, ComingSoon)| == 1
  {
    CatalogueTailComingSoon();
    CatalogueStep(3, ComingSoon);
    CatalogueStep(2, ComingSoon);
    CatalogueStep(1, ComingSoon);
    CatalogueStep(0, ComingSoon);
    assert Catalogue[0..] == Catalogue;
  }

  lemma CatalogueTailComingSoon()
    ensures |WithStat(Catalogue[4..], ComingSoon)| == 1
  {
    assert Catalogue[8..] == [];
    CatalogueStep(7, ComingSoon);
    CatalogueStep(6, ComingSoon);
    CatalogueStep(5, ComingSoon);
    CatalogueStep(4, ComingSoon);
  }

  /** When every status is one of the three, the status tabs' counts add up
      to the "All Rewards" count. */
  lemma {:induction false} StatusCountsSum(rs: seq<Reward>)
    requires forall k :: 0 <= k < |rs| ==> IsStatusTab(rs[k].stat)
    ensures TabCount(rs, Unlocked) + TabCount(rs, Locked) + TabCount(rs, ComingSoon) == TabCount(rs, AllRewards)
  {
    if rs != [] {
      StatusCountsSum(rs[1..]);
    }
  }

  /** `RewardCard`: the button is enabled only for an unlocked reward. */
  function CardEnabled(r: Reward): (enabled: bool)
    ensures enabled <==> r.stat == Unlocked
    ensures enabled ==> r.stat !in {Locked, ComingSoon}
    ensures r in Catalogue ==> (enabled <==> r == Catalogue[1])
  {
    r.stat == Unlocked
  }
}
