/** The group's rank ladder as the handler sees it: the catalog returned by `getRoles`,
    the `setrank` resolver built on `Array.prototype.find`, and the `rankinfo` listing. */
module Ranks {
  import opened Wrappers
  import opened Text

  /** One tier of the group's ladder: its number and its display name. */
  datatype RankDescriptor = RankDescriptor(rank: int, name: string)

  /** `Array.prototype.find` as an index: the first position whose descriptor satisfies
      `p`, or nothing when none does. */
  function FindIndex(catalog: seq<RankDescriptor>, p: RankDescriptor -> bool): (r: Option<nat>)
    ensures r.Some? ==> r.value < |catalog| && p(catalog[r.value])
    ensures r.Some? ==> forall j :: 0 <= j < r.value ==> !p(catalog[j])
    ensures r.None? ==> forall j :: 0 <= j < |catalog| ==> !p(catalog[j])
    decreases |catalog|
  {
    if catalog == [] then None
    else if p(catalog[0]) then Some(0)
    else match FindIndex(catalog[1..], p)
      case None => None
      case Some(i) => Some(i + 1)
  }

  /** `if (rankNumber)`: a missing integer option and the integer 0 are both falsy. */
  predicate NumberGiven(rankNumber: Option<int>)
  {
    rankNumber.Some? && rankNumber.value != 0
  }

  /** `if (rankName)`: a missing string option and the empty string are both falsy. */
  predicate NameGiven(rankName: Option<string>)
  {
    rankName.Some? && rankName.value != ""
  }

  /** The name test of the resolver: the lower-cased name contains the lower-cased query. */
  predicate NameMatches(d: RankDescriptor, query: string)
  {
    Contains(Lower(d.name), Lower(query))
  }

  /** Position `i` holds the first descriptor of the catalog whose rank is `n`. */
  ghost predicate FirstWithRank(catalog: seq<RankDescriptor>, n: int, i: int)
  {
    0 <= i < |catalog| && catalog[i].rank == n &&
    forall j :: 0 <= j < i ==> catalog[j].rank != n
  }

  /** Position `i` holds the first descriptor of the catalog whose name matches `query`. */
  ghost predicate FirstWithName(catalog: seq<RankDescriptor>, query: string, i: int)
  {
    0 <= i < |catalog| && NameMatches(catalog[i], query) &&
    forall j :: 0 <= j < i ==> !NameMatches(catalog[j], query)
  }

  /** The `setrank` resolver. A truthy rank number picks the first descriptor with exactly
      that rank and never falls back to the name; otherwise a truthy rank name picks the first
      descriptor whose name contains it case-insensitively; otherwise there is no rank. */
  function Resolve(catalog: seq<RankDescriptor>, rankNumber: Option<int>, rankName: Option<string>)
    : (r: Option<RankDescriptor>)
    ensures NumberGiven(rankNumber) ==>
              (r.None? <==> forall j :: 0 <= j < |catalog| ==> catalog[j].rank != rankNumber.value)
    ensures NumberGiven(rankNumber) && r.Some? ==>
              exists i :: FirstWithRank(catalog, rankNumber.value, i) && catalog[i] == r.value
    ensures !NumberGiven(rankNumber) && NameGiven(rankName) ==>
              (r.None? <==> forall j :: 0 <= j < |catalog| ==> !NameMatches(catalog[j], rankName.value))
    ensures !NumberGiven(rankNumber) && NameGiven(rankName) && r.Some? ==>
              exists i :: FirstWithName(catalog, rankName.value, i) && catalog[i] == r.value
    ensures !NumberGiven(rankNumber) && !NameGiven(rankName) ==> r.None?
  {
    if NumberGiven(rankNumber) then
      var n := rankNumber.value;
      var k := FindIndex(catalog, (d: RankDescriptor) => d.rank == n);
      if k.Some? then
        assert FirstWithRank(catalog, n, k.value);
        Some(catalog[k.value])
      else None
    else if NameGiven(rankName) then
      var q := rankName.value;
      var k := FindIndex(catalog, (d: RankDescriptor) => NameMatches(d, q));
      if k.Some? then
        assert FirstWithName(catalog, q, k.value);
        Some(catalog[k.value])
      else None
    else None
  }

  /** The resolver's answer, when there is one, is an entry of the catalog. */
  lemma ResolveFromCatalog(catalog: seq<RankDescriptor>, rankNumber: Option<int>, rankName: Option<string>)
    ensures var r := Resolve(catalog, rankNumber, rankName); r.Some? ==> r.value in catalog
  {
  }

  /** A truthy rank number decides alone: whatever name accompanies it, the answer is the
      one the number gives. */
  lemma NumberTakesPrecedence(catalog: seq<RankDescriptor>, rankNumber: Option<int>, a: Option<string>, b: Option<string>)
    requires NumberGiven(rankNumber)
    ensures Resolve(catalog, rankNumber, a) == Resolve(catalog, rankNumber, b)
  {
  }

  /** The rank number 0 is falsy, so it behaves exactly as if no number were supplied. */
  lemma ZeroNumberIsAbsent(catalog: seq<RankDescriptor>, rankName: Option<string>)
    ensures Resolve(catalog, Some(0), rankName) == Resolve(catalog, None, rankName)
  {
  }

  /** Two rank names that lower-case alike resolve alike. */
  lemma NameCaseIgnored(catalog: seq<RankDescriptor>, a: string, b: string)
    requires Lower(a) == Lower(b)
    ensures Resolve(catalog, None, Some(a)) == Resolve(catalog, None, Some(b))
  {
    if a == "" || b == "" {
      assert |a| == |Lower(a)| == |Lower(b)| == |b|;
    } else {
      assert forall d :: NameMatches(d, a) == NameMatches(d, b);
    }
  }

  /** The three-tier ladder used by the resolver examples below. */
  function SampleLadder(): seq<RankDescriptor>
  {
    [RankDescriptor(1, "Member"), RankDescriptor(2, "Moderator"), RankDescriptor(3, "Admin")]
  }

  /** A rank number selects the descriptor with that exact rank. */
  lemma ResolveByNumberExample()
    ensures Resolve(SampleLadder(), Some(2), None) == Some(RankDescriptor(2, "Moderator"))
    ensures Resolve(SampleLadder(), Some(7), Some("mod")) == None
  {
  }

  /** A name fragment selects the first descriptor whose name contains it. */
  lemma ResolveByNameExample()
    ensures Resolve(SampleLadder(), None, Some("mod")) == Some(RankDescriptor(2, "Moderator"))
  {
    SampleNameMatches();
    ResolvesToFirstByName(SampleLadder(), "mod", 1);
  }

  /** The comparison ignores case, and a rank number of 0 leaves the choice to the name. */
  lemma ResolveZeroNumberExample()
    ensures Resolve(SampleLadder(), Some(0), Some("MOD")) == Some(RankDescriptor(2, "Moderator"))
  {
    ResolveByNameExample();
    LowerSample();
    NameCaseIgnored(SampleLadder(), "MOD", "mod");
    ZeroNumberIsAbsent(SampleLadder(), Some("MOD"));
  }

  /** When position `i` holds the first name match, a name-only request resolves to it. */
  lemma ResolvesToFirstByName(catalog: seq<RankDescriptor>, query: string, i: int)
    requires query != "" && FirstWithName(catalog, query, i)
    ensures Resolve(catalog, None, Some(query)) == Some(catalog[i])
  {
    var r := Resolve(catalog, None, Some(query));
    assert r.Some?;
    var k :| FirstWithName(catalog, query, k) && catalog[k] == r.value;
    assert k == i;
  }

  lemma LowerSample()
    ensures Lower("MOD") == Lower("mod")
  {
    var a, b := Lower("MOD"), Lower("mod");
    assert a[0] == LowerChar('M') == 'm' == b[0];
    assert a[1] == LowerChar('O') == 'o' == b[1];
    assert a[2] == LowerChar('D') == 'd' == b[2];
  }

  lemma SampleNameMatches()
    ensures !NameMatches(SampleLadder()[0], "mod") && NameMatches(SampleLadder()[1], "mod")
  {
    MemberLacksMod();
    var h, q := Lower("Moderator"), Lower("mod");
    assert h[0] == LowerChar('M') == 'm' == q[0];
    assert h[1] == 'o' == q[1] && h[2] == 'd' == q[2];
    assert IsPrefix(q, h);
  }

  lemma MemberLacksMod()
    ensures !Contains(Lower("Member"), Lower("mod"))
  {
    assert Lower("Member") == "member";
    assert Lower("mod") == "mod";
    ContainsIff("member", "mod");
    forall i | 0 <= i && i + 3 <= 6 ensures !OccursAt("member", "mod", i) {
      assert "member"[i..i + 3][1] == "member"[i + 1];
      assert "member"[i] != 'm' || "member"[i + 1] != 'o';
    }
  }

  /** A fragment that no name contains resolves to nothing. */
  lemma ResolveUnknownNameExample()
    ensures Resolve(SampleLadder(), None, Some("zzz")) == None
  {
    var c := SampleLadder();
    assert Lower("zzz") == "zzz";
    forall j | 0 <= j < 3 ensures !NameMatches(c[j], "zzz") {
      var h := Lower(c[j].name);
      assert forall k :: 0 <= k < |h| ==> h[k] != 'z';
      ContainsIff(h, "zzz");
      forall i | 0 <= i && i + 3 <= |h| ensures !OccursAt(h, "zzz", i) {
        assert h[i..i + 3][0] == h[i];
      }
    }
  }

  /** A number and a fragment naming a different rank: the number wins. */
  lemma ResolvePrecedenceExample()
    ensures Resolve(SampleLadder(), Some(3), Some("mod")) == Some(RankDescriptor(3, "Admin"))
  {
  }

  /** Ascending by rank, as `sort((a, b) => a.rank - b.rank)` leaves the catalog. */
  predicate SortedByRank(s: seq<RankDescriptor>)
  {
    forall i, j :: 0 <= i < j < |s| ==> s[i].rank <= s[j].rank
  }

  /** The head of a sorted sequence has the lowest rank. */
  lemma HeadIsLowest(s: seq<RankDescriptor>)
    requires SortedByRank(s) && s != []
    ensures forall x :: x in s[1..] ==> s[0].rank <= x.rank
  {
    forall x | x in s[1..] ensures s[0].rank <= x.rank {
      var k :| 0 <= k < |s[1..]| && s[1..][k] == x;
      assert s[k + 1] == x;
    }
  }

  /** Places `d` in front of the first element of `s` whose rank is not below its own. */
  function InsertByRank(d: RankDescriptor, s: seq<RankDescriptor>): seq<RankDescriptor>
    decreases |s|
  {
    if s == [] || d.rank <= s[0].rank then [d] + s
    else [s[0]] + InsertByRank(d, s[1..])
  }

  /** Inserting adds `d` and loses nothing. */
  lemma {:induction false} InsertByRankPermutes(d: RankDescriptor, s: seq<RankDescriptor>)
    ensures multiset(InsertByRank(d, s)) == multiset(s) + multiset{d}
    decreases |s|
  {
    if !(s == [] || d.rank <= s[0].rank) {
      InsertByRankPermutes(d, s[1..]);
      assert s == [s[0]] + s[1..];
    }
  }

  /** Inserting into a sorted sequence keeps it sorted. */
  lemma {:induction false} InsertByRankSorted(d: RankDescriptor, s: seq<RankDescriptor>)
    requires SortedByRank(s)
    ensures SortedByRank(InsertByRank(d, s))
    decreases |s|
  {
    if !(s == [] || d.rank <= s[0].rank) {
      var rest := InsertByRank(d, s[1..]);
      InsertByRankSorted(d, s[1..]);
      InsertByRankPermutes(d, s[1..]);
      HeadIsLowest(s);
      forall i | 0 <= i < |rest| ensures s[0].rank <= rest[i].rank {
        assert rest[i] in multiset(rest);
      }
    }
  }

  lemma MultisetOfCons(s: seq<RankDescriptor>)
    requires s != []
    ensures multiset(s) == multiset(s[1..]) + multiset{s[0]}
  {
    assert s == [s[0]] + s[1..];
  }

  /** The `rankinfo` sort: a stable sort of the catalog by ascending rank. */
  function SortByRank(s: seq<RankDescriptor>): (r: seq<RankDescriptor>)
    ensures SortedByRank(r)
    ensures multiset(r) == multiset(s)
    decreases |s|
  {
    if s == [] then []
    else
      var rest := SortByRank(s[1..]);
      InsertByRankSorted(s[0], rest);
      InsertByRankPermutes(s[0], rest);
      MultisetOfCons(s);
      InsertByRank(s[0], rest)
  }

  /** One line of the `rankinfo` reply: `**rank** - name`. */
  function RankLine(d: RankDescriptor): string
  {
    "**" + IntToString(d.rank) + "** - " + d.name
  }

  /** Two descriptors with different ranks never give the same listing line: the number
      between the bold markers tells them apart, whatever their names. */
  lemma RankLineShowsRank(a: RankDescriptor, b: RankDescriptor)
    requires a.rank != b.rank
    ensures RankLine(a) != RankLine(b)
  {
    var sa, sb := IntToString(a.rank), IntToString(b.rank);
    var la, lb := RankLine(a), RankLine(b);
    if |sa| == |sb| {
      if sa == sb {
        IntToStringInjective(a.rank, b.rank);
        assert false;
      }
      assert la[2..2 + |sa|] == sa && lb[2..2 + |sb|] == sb;
    } else if |sa| < |sb| {
      NoStarInIntToString(b.rank);
      assert la[2 + |sa|] == '*' && lb[2 + |sa|] == sb[|sa|];
    } else {
      NoStarInIntToString(a.rank);
      assert lb[2 + |sb|] == '*' && la[2 + |sb|] == sa[|sb|];
    }
  }

  /** The `rankinfo` description: one line per descriptor of the sorted catalog. */
  function RankListing(catalog: seq<RankDescriptor>): seq<string>
  {
    var sorted := SortByRank(catalog);
    seq(|sorted|, i requires 0 <= i < |sorted| => RankLine(sorted[i]))
  }

  /** The listing shows the catalog sorted ascending by rank, one line per descriptor, with
      nothing added and nothing lost. */
  lemma RankListingSortsCatalog(catalog: seq<RankDescriptor>)
    ensures |RankListing(catalog)| == |catalog|
    ensures exists sorted :: SortedByRank(sorted) && multiset(sorted) == multiset(catalog) &&
              |sorted| == |catalog| &&
              forall i :: 0 <= i < |sorted| ==> RankListing(catalog)[i] == RankLine(sorted[i])
  {
    var sorted := SortByRank(catalog);
    assert |sorted| == |multiset(sorted)| == |catalog|;
  }
}
