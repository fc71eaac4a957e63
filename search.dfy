/** The search overlay: a fixed catalog filtered by a case-insensitive
    substring match on title or subtitle, the matches grouped by type in a
    fixed order, and the query box that the input, the clear button, the
    suggestions and closing the overlay overwrite. */
module Search {
  import opened Seqs
  import opened Text

  /** A catalog entry, without its icon and colour fields. */
  datatype SearchResult = SearchResult(kind: string, title: string, subtitle: string, href: string)

  const IntroToCs := SearchResult("Course", "Introduction to Computer Science", "CS 101 · Dr. Evans · Fall 2024", "#")
  const Calculus3 := SearchResult("Course", "Calculus III", "MATH 301 · Dr. Patel · Fall 2024", "#")
  const OrganicChemistry := SearchResult("Course", "Organic Chemistry", "CHEM 210 · Dr. Rivera · Fall 2024", "#")
  const DrEvans := SearchResult("Faculty", "Dr. Sarah Evans", "Computer Science Department", "#")
  const ProfCarter := SearchResult("Faculty", "Prof. James Carter", "Mathematics Department", "#")
  const BscComputerScience := SearchResult("Program", "BSc Computer Science", "4-year undergraduate program", "#")
  const MbaProgram := SearchResult("Program", "MBA Business Administration", "2-year graduate program", "#")
  const AdmissionsLink := SearchResult("Page", "Admissions", "Apply to State University", "#admissions")
  const FinancialAidLink := SearchResult("Page", "Financial Aid", "Scholarships and tuition support", "#")
  const CampusMapLink := SearchResult("Page", "Campus Map", "Navigate our campus", "#")

  /** The entries the overlay searches, in display order. */
  const Catalog: seq<SearchResult> := [
    IntroToCs, Calculus3, OrganicChemistry, DrEvans, ProfCarter,
    BscComputerScience, MbaProgram, AdmissionsLink, FinancialAidLink, CampusMapLink
  ]

  const RecentSearches: seq<string> := ["MATH 301", "Financial Aid", "Career Fair", "Dr. Evans"]

  const Trending: seq<string> :=
    ["Spring Registration", "Graduation Ceremony", "Scholarship Applications", "Campus Events"]

  /** The result groups, in the order they are shown. */
  const GroupOrder: seq<string> := ["Course", "Faculty", "Program", "Page"]

  /** The match test: the lower-cased query occurs in the lower-cased title or
      in the lower-cased subtitle. The query is not trimmed here. */
  predicate Matches(e: SearchResult, query: string)
  {
    TextMatches(e.title, query) || TextMatches(e.subtitle, query)
  }

  /** `text.toLowerCase().includes(query.toLowerCase())`. */
  predicate TextMatches(text: string, query: string)
  {
    Contains(LowerStr(text), LowerStr(query))
  }

  /** The result list over a catalog: nothing for a blank query; otherwise
      the catalog entries that match, in catalog order. The overlay searches
      `Catalog`. */
  function Results(catalog: seq<SearchResult>, query: string): (r: seq<SearchResult>)
    ensures IsBlank(query) ==> r == []
    ensures !IsBlank(query) ==> forall e :: e in r <==> e in catalog && Matches(e, query)
  {
    if IsBlank(query) then [] else Filter(catalog, (e: SearchResult) => Matches(e, query))
  }

  /** The entries of kind `k`, in order. */
  function OfKind(rs: seq<SearchResult>, k: string): seq<SearchResult>
  {
    Filter(rs, (e: SearchResult) => e.kind == k)
  }

  /** One heading of the result list and the entries under it. */
  datatype Group = Group(kind: string, entries: seq<SearchResult>)

  /** Grouping by the kinds `ks`, in that order: one group per kind that has
      entries, holding those entries in their order; empty groups are left out. */
  function GroupsIn(rs: seq<SearchResult>, ks: seq<string>): (gs: seq<Group>)
    ensures forall g :: g in gs ==> g.kind in ks && g.entries != [] && g.entries == OfKind(rs, g.kind)
  {
    if ks == [] then [] else GroupFor(rs, ks[0]) + GroupsIn(rs, ks[1..])
  }

  /** The group of kind `k`, or nothing when no entry has that kind. */
  function GroupFor(rs: seq<SearchResult>, k: string): seq<Group>
  {
    var g := OfKind(rs, k);
    if g == [] then [] else [Group(k, g)]
  }

  /** The grouping the overlay shows: Course, Faculty, Program, Page. */
  function Grouped(rs: seq<SearchResult>): seq<Group>
  {
    GroupsIn(rs, GroupOrder)
  }

  function Kinds(gs: seq<Group>): seq<string>
  {
    if gs == [] then [] else [gs[0].kind] + Kinds(gs[1..])
  }

  /** The entries of all groups, group after group. */
  function Flatten(gs: seq<Group>): seq<SearchResult>
  {
    if gs == [] then [] else gs[0].entries + Flatten(gs[1..])
  }

  /** What the panel below the input shows. */
  datatype Panel =
    | Suggestions(recent: seq<string>, trending: seq<string>)
    | NoResults(echo: string)
    | Groups(groups: seq<Group>)

  /** The panel for a query: the suggestions while the query is blank, the
      "No results" message echoing the query when nothing matches, the
      grouped matches otherwise. */
  function Display(catalog: seq<SearchResult>, query: string): (p: Panel)
    requires KindsKnown(catalog)
    ensures p.Suggestions? <==> IsBlank(query)
    ensures p.Suggestions? ==> p.recent == RecentSearches && p.trending == Trending
    ensures p.NoResults? <==> !IsBlank(query) && forall e :: e in catalog ==> !Matches(e, query)
    ensures p.NoResults? ==> p.echo == query
    ensures p.Groups? ==> p.groups == Grouped(Results(catalog, query)) && p.groups != []
  {
    var rs := Results(catalog, query);
    if IsBlank(query) then Suggestions(RecentSearches, Trending)
    else if rs == [] then NoResults(query)
    else
      GroupedIsPermutation(catalog, query);
      assert rs[0] in multiset(rs);
      Groups(Grouped(rs))
  }

  // ---------------------------------------------------------------------------
  // The catalog

  /** Every entry is of one of the four group kinds. */
  predicate KindsKnown(catalog: seq<SearchResult>)
  {
    forall e :: e in catalog ==> e.kind in GroupOrder
  }

  /** The shipped catalog holds only the four group kinds. */
  lemma CatalogKinds()
    ensures KindsKnown(Catalog)
  {
  }

  /** No entry occurs twice in the catalog. */
  lemma CatalogDistinct()
    ensures NoDuplicates(Catalog)
  {
  }

  // ---------------------------------------------------------------------------
  // Results

  /** Results keep catalog order and hold no entry twice. */
  lemma ResultsOrderedDistinct(catalog: seq<SearchResult>, query: string)
    requires NoDuplicates(catalog)
    ensures IsSubseq(Results(catalog, query), catalog)
    ensures NoDuplicates(Results(catalog, query))
  {
    if !IsBlank(query) {
      var p := (e: SearchResult) => Matches(e, query);
      FilterIsSubseq(catalog, p);
      FilterNoDuplicates(catalog, p);
    }
  }

  /** The results depend on the query only through its lower-cased form:
      queries that differ only in letter case give the same results. */
  lemma ResultsIgnoreCase(catalog: seq<SearchResult>, q1: string, q2: string)
    requires LowerStr(q1) == LowerStr(q2)
    ensures Results(catalog, q1) == Results(catalog, q2)
  {
    BlankIgnoresCase(q1);
    BlankIgnoresCase(q2);
    FilterCongruent(catalog, (e: SearchResult) => Matches(e, q1), (e: SearchResult) => Matches(e, q2));
  }

  /** Filtering the results again by the same query changes nothing. */
  lemma ResultsRefilter(catalog: seq<SearchResult>, query: string)
    ensures Filter(Results(catalog, query), (e: SearchResult) => Matches(e, query)) == Results(catalog, query)
  {
    if !IsBlank(query) {
      FilterIdempotent(catalog, (e: SearchResult) => Matches(e, query));
    }
  }

  // ---------------------------------------------------------------------------
  // Grouping

  /** The groups come in the order of `ks`. */
  lemma {:induction false} GroupsInOrder(rs: seq<SearchResult>, ks: seq<string>)
    ensures IsSubseq(Kinds(GroupsIn(rs, ks)), ks)
  {
    if ks != [] {
      GroupsInOrder(rs, ks[1..]);
      var rest := GroupsIn(rs, ks[1..]);
      if OfKind(rs, ks[0]) == [] {
        assert GroupsIn(rs, ks) == rest;
      } else {
        assert GroupsIn(rs, ks) == [Group(ks[0], OfKind(rs, ks[0]))] + rest;
        assert Kinds(GroupsIn(rs, ks)) == [ks[0]] + Kinds(rest);
      }
    }
  }

  /** With distinct kinds `ks`, the groups hold every entry whose kind is in
      `ks` exactly as often as `rs` does, and nothing else. */
  lemma {:induction false} GroupsCoverKinds(rs: seq<SearchResult>, ks: seq<string>)
    requires NoDuplicates(ks)
    ensures forall e :: multiset(Flatten(GroupsIn(rs, ks)))[e]
                        == if e.kind in ks then multiset(rs)[e] else 0
  {
    if ks != [] {
      var k := ks[0];
      NoDuplicatesTail(ks);
      GroupsCoverKinds(rs, ks[1..]);
      var g := OfKind(rs, k);
      FilterCount(rs, (e: SearchResult) => e.kind == k);
      var rest := GroupsIn(rs, ks[1..]);
      assert multiset(Flatten(GroupsIn(rs, ks))) == multiset(g) + multiset(Flatten(rest)) by {
        if g == [] {
          assert GroupsIn(rs, ks) == rest;
        } else {
          assert GroupsIn(rs, ks) == [Group(k, g)] + rest;
        }
      }
      forall e ensures multiset(Flatten(GroupsIn(rs, ks)))[e]
                       == if e.kind in ks then multiset(rs)[e] else 0 {
        assert e.kind in ks <==> e.kind == k || e.kind in ks[1..];
      }
    }
  }

  /** The grouped display shows every result exactly once: the groups
      together are a permutation of the results. */
  lemma GroupedIsPermutation(catalog: seq<SearchResult>, query: string)
    requires KindsKnown(catalog)
    ensures multiset(Flatten(Grouped(Results(catalog, query)))) == multiset(Results(catalog, query))
  {
    GroupedPermutes(Results(catalog, query));
  }

  /** Results whose kinds are all known are grouped without loss or
      repetition. */
  lemma GroupedPermutes(rs: seq<SearchResult>)
    requires forall e :: e in rs ==> e.kind in GroupOrder
    ensures multiset(Flatten(Grouped(rs))) == multiset(rs)
  {
    GroupOrderDistinct();
    GroupsCoverKinds(rs, GroupOrder);
    forall e ensures multiset(Flatten(Grouped(rs)))[e] == multiset(rs)[e] {
      if e in rs {
        assert e.kind in GroupOrder;
      }
    }
  }

  /** The four group headings are distinct. */
  lemma GroupOrderDistinct()
    ensures NoDuplicates(GroupOrder)
  {
  }

  // ---------------------------------------------------------------------------
  // Concrete queries
  //
  // Each text lemma below takes the title and subtitle of one catalog entry
  // and shows that neither contains the queries it names, up to letter case:
  // either a query character is missing from the text, or two adjacent query
  // characters never stand side by side in it.
  //
  // The texts come in as parameters fixed by `requires` rather than as the
  // catalog constants themselves: a call on a literal string makes the
  // verifier unfold every function over that literal at once, while a
  // parameter is unfolded only as far as the proof asks.

  lemma IntroToCsTitle(title: string)
    requires title == "Introduction to Computer Science"
    ensures !TextMatches(title, "calc") && TextMatches(title, "computer science")
  {
    assert OccursAt(LowerStr(title), LowerStr("computer science"), 16);
    LowerMissingChar(title, "calc", 1);
  }

  lemma IntroToCsSubtitle(subtitle: string)
    requires subtitle == "CS 101 · Dr. Evans · Fall 2024"
    ensures !TextMatches(subtitle, "calc")
  {
    LowerMissingPair(subtitle, "calc", 0);
  }

  lemma CalculusText(title: string, subtitle: string)
    requires title == "Calculus III"
    requires subtitle == "MATH 301 · Dr. Patel · Fall 2024"
    ensures !TextMatches(title, "computer science") && !TextMatches(subtitle, "computer science")
    ensures !TextMatches(title, " calc") && !TextMatches(subtitle, " calc")
    ensures TextMatches(title, "calc")
  {
    assert OccursAt(LowerStr(title), LowerStr("calc"), 0);
    LowerMissingChar(title, "computer science", 1);
    LowerMissingChar(subtitle, "computer science", 1);
    LowerMissingPair(title, " calc", 0);
    LowerMissingChar(subtitle, " calc", 1);
  }

  lemma ChemistryTitle(title: string)
    requires title == "Organic Chemistry"
    ensures !TextMatches(title, "calc") && !TextMatches(title, "computer science")
  {
    LowerMissingChar(title, "calc", 2);
    LowerMissingChar(title, "computer science", 4);
  }

  lemma ChemistrySubtitle(subtitle: string)
    requires subtitle == "CHEM 210 · Dr. Rivera · Fall 2024"
    ensures !TextMatches(subtitle, "calc") && !TextMatches(subtitle, "computer science")
  {
    LowerMissingPair(subtitle, "calc", 0);
    LowerMissingChar(subtitle, "computer science", 1);
  }

  lemma EvansText(title: string, subtitle: string)
    requires title == "Dr. Sarah Evans"
    requires subtitle == "Computer Science Department"
    ensures !TextMatches(title, "calc") && !TextMatches(subtitle, "calc")
    ensures TextMatches(subtitle, "computer science")
  {
    assert OccursAt(LowerStr(subtitle), LowerStr("computer science"), 0);
    LowerMissingChar(title, "calc", 0);
    LowerMissingChar(subtitle, "calc", 2);
  }

  lemma CarterText(title: string, subtitle: string)
    requires title == "Prof. James Carter"
    requires subtitle == "Mathematics Department"
    ensures !TextMatches(title, "calc") && !TextMatches(subtitle, "calc")
    ensures !TextMatches(title, "computer science") && !TextMatches(subtitle, "computer science")
  {
    LowerMissingChar(title, "calc", 2);
    LowerMissingChar(subtitle, "calc", 2);
    LowerMissingChar(title, "computer science", 4);
    LowerMissingChar(subtitle, "computer science", 1);
  }

  lemma BscText(title: string, subtitle: string)
    requires title == "BSc Computer Science"
    requires subtitle == "4-year undergraduate program"
    ensures !TextMatches(title, "calc") && !TextMatches(subtitle, "calc")
    ensures TextMatches(title, "computer science")
  {
    assert OccursAt(LowerStr(title), LowerStr("computer science"), 4);
    LowerMissingChar(title, "calc", 1);
    LowerMissingChar(subtitle, "calc", 0);
  }

  lemma MbaText(title: string, subtitle: string)
    requires title == "MBA Business Administration"
    requires subtitle == "2-year graduate program"
    ensures !TextMatches(title, "calc") && !TextMatches(subtitle, "calc")
    ensures !TextMatches(title, "computer science") && !TextMatches(subtitle, "computer science")
  {
    LowerMissingChar(title, "calc", 0);
    LowerMissingChar(subtitle, "calc", 0);
    LowerMissingChar(title, "computer science", 0);
    LowerMissingChar(subtitle, "computer science", 0);
  }

  lemma AdmissionsText(title: string, subtitle: string)
    requires title == "Admissions"
    requires subtitle == "Apply to State University"
    ensures !TextMatches(title, "calc") && !TextMatches(subtitle, "calc")
    ensures !TextMatches(title, "computer science") && !TextMatches(subtitle, "computer science")
  {
    LowerMissingChar(title, "calc", 0);
    LowerMissingChar(subtitle, "calc", 0);
    LowerMissingChar(title, "computer science", 0);
    LowerMissingChar(subtitle, "computer science", 0);
  }

  lemma FinancialAidTitle(title: string)
    requires title == "Financial Aid"
    ensures !TextMatches(title, "calc") && !TextMatches(title, "computer science")
  {
    LowerMissingPair(title, "calc", 0);
    LowerMissingChar(title, "computer science", 1);
  }

  lemma FinancialAidSubtitle(subtitle: string)
    requires subtitle == "Scholarships and tuition support"
    ensures !TextMatches(subtitle, "calc") && !TextMatches(subtitle, "computer science")
  {
    LowerMissingPair(subtitle, "calc", 0);
    LowerMissingChar(subtitle, "computer science", 2);
  }

  lemma CampusMapText(title: string, subtitle: string)
    requires title == "Campus Map"
    requires subtitle == "Navigate our campus"
    ensures !TextMatches(title, "calc") && !TextMatches(subtitle, "calc")
    ensures !TextMatches(title, "computer science") && !TextMatches(subtitle, "computer science")
  {
    LowerMissingChar(title, "calc", 2);
    LowerMissingChar(subtitle, "calc", 2);
    LowerMissingChar(title, "computer science", 1);
    LowerMissingPair(subtitle, "computer science", 0);
  }

  /** An entry that misses a query without its first character misses the
      query: an entry that misses "calc" misses " calc". */
  lemma MissesLonger(e: SearchResult, query: string)
    requires query != [] && !Matches(e, query[1..])
    ensures !Matches(e, query)
  {
    assert LowerStr(query)[1..] == LowerStr(query[1..]);
    if Contains(LowerStr(e.title), LowerStr(query)) {
      ContainsTail(LowerStr(e.title), LowerStr(query));
    }
    if Contains(LowerStr(e.subtitle), LowerStr(query)) {
      ContainsTail(LowerStr(e.subtitle), LowerStr(query));
    }
  }

  /** The catalog entries "calc" matches: only "Calculus III". */
  lemma CalcMatches()
    ensures Matches(Calculus3, "calc")
    ensures !Matches(IntroToCs, "calc") && !Matches(OrganicChemistry, "calc") && !Matches(DrEvans, "calc")
    ensures !Matches(ProfCarter, "calc") && !Matches(BscComputerScience, "calc") && !Matches(MbaProgram, "calc")
    ensures !Matches(AdmissionsLink, "calc") && !Matches(FinancialAidLink, "calc") && !Matches(CampusMapLink, "calc")
  {
    CalculusText(Calculus3.title, Calculus3.subtitle);
    IntroToCsTitle(IntroToCs.title);
    IntroToCsSubtitle(IntroToCs.subtitle);
    ChemistryTitle(OrganicChemistry.title);
    ChemistrySubtitle(OrganicChemistry.subtitle);
    EvansText(DrEvans.title, DrEvans.subtitle);
    CarterText(ProfCarter.title, ProfCarter.subtitle);
    BscText(BscComputerScience.title, BscComputerScience.subtitle);
    MbaText(MbaProgram.title, MbaProgram.subtitle);
    AdmissionsText(AdmissionsLink.title, AdmissionsLink.subtitle);
    FinancialAidTitle(FinancialAidLink.title);
    FinancialAidSubtitle(FinancialAidLink.subtitle);
    CampusMapText(CampusMapLink.title, CampusMapLink.subtitle);
  }

  /** The catalog entries "computer science" matches: the introductory
      course, Dr. Evans (through her department) and the BSc program. */
  lemma ComputerScienceMatches()
    ensures Matches(IntroToCs, "computer science") && Matches(DrEvans, "computer science")
    ensures Matches(BscComputerScience, "computer science")
    ensures !Matches(Calculus3, "computer science") && !Matches(OrganicChemistry, "computer science")
    ensures !Matches(ProfCarter, "computer science") && !Matches(MbaProgram, "computer science")
    ensures !Matches(AdmissionsLink, "computer science") && !Matches(FinancialAidLink, "computer science")
    ensures !Matches(CampusMapLink, "computer science")
  {
    IntroToCsTitle(IntroToCs.title);
    IntroToCsSubtitle(IntroToCs.subtitle);
    EvansText(DrEvans.title, DrEvans.subtitle);
    BscText(BscComputerScience.title, BscComputerScience.subtitle);
    CalculusText(Calculus3.title, Calculus3.subtitle);
    ChemistryTitle(OrganicChemistry.title);
    ChemistrySubtitle(OrganicChemistry.subtitle);
    CarterText(ProfCarter.title, ProfCarter.subtitle);
    MbaText(MbaProgram.title, MbaProgram.subtitle);
    AdmissionsText(AdmissionsLink.title, AdmissionsLink.subtitle);
    FinancialAidTitle(FinancialAidLink.title);
    FinancialAidSubtitle(FinancialAidLink.subtitle);
    CampusMapText(CampusMapLink.title, CampusMapLink.subtitle);
  }

  /** A query ending in a lower-case letter is not blank. */
  lemma LettersNotBlank(query: string)
    requires query != [] && 'a' <= query[|query| - 1] <= 'z'
    ensures !IsBlank(query)
  {
    BlankIffAllSpace(query);
  }

  /** When exactly one entry of a duplicate-free catalog matches a non-blank
      query, that entry is the whole result list. */
  lemma SingleResult(catalog: seq<SearchResult>, query: string, x: SearchResult)
    requires NoDuplicates(catalog) && !IsBlank(query)
    requires x in catalog && Matches(x, query)
    requires forall e :: e in catalog && e != x ==> !Matches(e, query)
    ensures Results(catalog, query) == [x]
  {
    FilterSingle(catalog, (e: SearchResult) => Matches(e, query), x);
  }

  /** Grouping by four kinds is the four groups one after the other. */
  lemma GroupsInFour(rs: seq<SearchResult>, ks: seq<string>)
    requires |ks| == 4
    ensures GroupsIn(rs, ks) == GroupFor(rs, ks[0]) + (GroupFor(rs, ks[1]) + (GroupFor(rs, ks[2]) + GroupFor(rs, ks[3])))
  {
    var t1, t2, t3 := ks[1..], ks[2..], ks[3..];
    assert t1[0] == ks[1] && t1[1..] == t2;
    assert t2[0] == ks[2] && t2[1..] == t3;
    assert t3[0] == ks[3] && t3[1..] == [];
    assert GroupsIn(rs, t3) == GroupFor(rs, ks[3]) + [];
    assert GroupsIn(rs, t2) == GroupFor(rs, ks[2]) + GroupsIn(rs, t3);
    assert GroupsIn(rs, t1) == GroupFor(rs, ks[1]) + GroupsIn(rs, t2);
  }

  /** A single course is shown as one Course group. */
  lemma GroupedOneCourse(x: SearchResult)
    requires x.kind == "Course"
    ensures Grouped([x]) == [Group("Course", [x])]
  {
    FilterSingle([x], (e: SearchResult) => e.kind == "Course", x);
    FilterNone([x], (e: SearchResult) => e.kind == "Faculty");
    FilterNone([x], (e: SearchResult) => e.kind == "Program");
    FilterNone([x], (e: SearchResult) => e.kind == "Page");
    GroupsInFour([x], GroupOrder);
  }

  /** Among results that are one course, one faculty member and one program,
      each kind picks out its one entry, and no entry is a page. */
  lemma OfKindThree(rs: seq<SearchResult>, a: SearchResult, b: SearchResult, c: SearchResult)
    requires NoDuplicates(rs)
    requires a.kind == "Course" && b.kind == "Faculty" && c.kind == "Program"
    requires forall e :: e in rs <==> e == a || e == b || e == c
    ensures OfKind(rs, "Course") == [a] && OfKind(rs, "Faculty") == [b]
    ensures OfKind(rs, "Program") == [c] && OfKind(rs, "Page") == []
  {
    FilterSingle(rs, (e: SearchResult) => e.kind == "Course", a);
    FilterSingle(rs, (e: SearchResult) => e.kind == "Faculty", b);
    FilterSingle(rs, (e: SearchResult) => e.kind == "Program", c);
    FilterNone(rs, (e: SearchResult) => e.kind == "Page");
  }

  /** Results that are one course, one faculty member and one program are
      shown as three groups of one entry each, in that order. */
  lemma GroupedThreeKinds(rs: seq<SearchResult>, a: SearchResult, b: SearchResult, c: SearchResult)
    requires NoDuplicates(rs)
    requires a.kind == "Course" && b.kind == "Faculty" && c.kind == "Program"
    requires forall e :: e in rs <==> e == a || e == b || e == c
    ensures Grouped(rs) == [Group("Course", [a]), Group("Faculty", [b]), Group("Program", [c])]
  {
    OfKindThree(rs, a, b, c);
    GroupsInFour(rs, GroupOrder);
  }

  /** "calc" matches "Calculus III" and no other catalog entry. */
  lemma CalcMembers()
    ensures Matches(Calculus3, "calc")
    ensures forall e :: e in Catalog && e != Calculus3 ==> !Matches(e, "calc")
  {
    CalcMatches();
  }

  /** "calc" finds only "Calculus III", shown under Course. */
  lemma CalcQuery()
    ensures Results(Catalog, "calc") == [Calculus3]
    ensures Grouped(Results(Catalog, "calc")) == [Group("Course", [Calculus3])]
  {
    CalcMembers();
    LettersNotBlank("calc");
    CatalogDistinct();
    SingleResult(Catalog, "calc", Calculus3);
    GroupedOneCourse(Calculus3);
  }

  /** "computer science" matches exactly the introductory course, Dr. Evans
      and the BSc program among the catalog entries. */
  lemma ComputerScienceMembers()
    ensures forall e :: e in Catalog ==>
              (Matches(e, "computer science") <==> e == IntroToCs || e == DrEvans || e == BscComputerScience)
  {
    ComputerScienceMatches();
  }

  /** When exactly three entries of a catalog match a non-blank query, the
      results are those three. */
  lemma ThreeResults(catalog: seq<SearchResult>, query: string, a: SearchResult, b: SearchResult, c: SearchResult)
    requires !IsBlank(query) && a in catalog && b in catalog && c in catalog
    requires forall e :: e in catalog ==> (Matches(e, query) <==> e == a || e == b || e == c)
    ensures forall e :: e in Results(catalog, query) <==> e == a || e == b || e == c
  {
  }

  /** Three groups hold their entries one group after the other. */
  lemma FlattenThree(g1: Group, g2: Group, g3: Group)
    ensures Flatten([g1, g2, g3]) == g1.entries + (g2.entries + g3.entries)
  {
    assert [g1, g2, g3][1..] == [g2, g3];
    assert [g2, g3][1..] == [g3];
    assert [g3][1..] == [];
    assert Flatten([g3]) == g3.entries + [];
  }

  /** Results that are one course, one faculty member and one program are
      those three entries once each, under three headings. */
  lemma ThreeKindsShown(catalog: seq<SearchResult>, query: string, a: SearchResult, b: SearchResult, c: SearchResult)
    requires NoDuplicates(catalog) && KindsKnown(catalog)
    requires a.kind == "Course" && b.kind == "Faculty" && c.kind == "Program"
    requires forall e :: e in Results(catalog, query) <==> e == a || e == b || e == c
    ensures multiset(Results(catalog, query)) == multiset{a, b, c}
    ensures Grouped(Results(catalog, query)) == [Group("Course", [a]), Group("Faculty", [b]), Group("Program", [c])]
  {
    var r := Results(catalog, query);
    ResultsOrderedDistinct(catalog, query);
    GroupedThreeKinds(r, a, b, c);
    GroupedIsPermutation(catalog, query);
    FlattenThree(Group("Course", [a]), Group("Faculty", [b]), Group("Program", [c]));
  }

  /** "computer science" finds one course, one faculty member and one
      program, each under its own heading. */
  lemma ComputerScienceQuery()
    ensures multiset(Results(Catalog, "computer science")) == multiset{IntroToCs, DrEvans, BscComputerScience}
    ensures Grouped(Results(Catalog, "computer science"))
         == [Group("Course", [IntroToCs]), Group("Faculty", [DrEvans]), Group("Program", [BscComputerScience])]
  {
    var q := "computer science";
    ComputerScienceMembers();
    LettersNotBlank(q);
    ThreeResults(Catalog, q, IntroToCs, DrEvans, BscComputerScience);
    CatalogDistinct();
    CatalogKinds();
    ThreeKindsShown(Catalog, q, IntroToCs, DrEvans, BscComputerScience);
  }

  /** No catalog entry matches " calc": only "Calculus III" holds "calc",
      and there it starts the title. */
  lemma UntrimmedMisses()
    ensures forall e :: e in Catalog ==> !Matches(e, " calc")
  {
    CalcMatches();
    CalculusText(Calculus3.title, Calculus3.subtitle);
    assert " calc"[1..] == "calc";
    MissesLonger(IntroToCs, " calc");
    MissesLonger(OrganicChemistry, " calc");
    MissesLonger(DrEvans, " calc");
    MissesLonger(ProfCarter, " calc");
    MissesLonger(BscComputerScience, " calc");
    MissesLonger(MbaProgram, " calc");
    MissesLonger(AdmissionsLink, " calc");
    MissesLonger(FinancialAidLink, " calc");
    MissesLonger(CampusMapLink, " calc");
  }

  /** Matching does not trim the query: " calc" is not blank and matches
      nothing, so the overlay shows "No results" for it although "calc"
      finds "Calculus III". */
  lemma UntrimmedQuery()
    ensures Display(Catalog, " calc") == NoResults(" calc")
  {
    CatalogKinds();
    LettersNotBlank(" calc");
    UntrimmedMisses();
  }

  // ---------------------------------------------------------------------------
  // The overlay's state

  /** A query that starts with a capital letter is not blank. */
  lemma CapitalNotBlank(s: string)
    requires s != [] && 'A' <= s[0] <= 'Z'
    ensures !IsBlank(s)
  {
    BlankIffAllSpace(s);
  }

  lemma RecentNotBlank(s: string)
    requires s in RecentSearches
    ensures !IsBlank(s)
  {
    CapitalNotBlank(s);
  }

  lemma TrendingNotBlank(s: string)
    requires s in Trending
    ensures !IsBlank(s)
  {
    CapitalNotBlank(s);
  }

  /** Every suggestion is a non-blank query. */
  lemma SuggestionsNotBlank(s: string)
    requires s in RecentSearches || s in Trending
    ensures !IsBlank(s)
  {
    if s in RecentSearches {
      RecentNotBlank(s);
    } else {
      TrendingNotBlank(s);
    }
  }

  /** The overlay's query box. */
  class SearchOverlay {
    var query: string

    constructor ()
      ensures query == ""
    {
      query := "";
    }

    /** What the panel shows for the current query. */
    function Shown(): Panel
      reads this
    {
      CatalogKinds();
      Display(Catalog, query)
    }

    /** Typing: the box takes the input's value. */
    method Input(value: string)
      modifies this
      ensures query == value
    {
      query := value;
    }

    /** The clear button. */
    method Clear()
      modifies this
      ensures query == "" && Shown().Suggestions?
    {
      query := "";
      assert IsBlank(query);
    }

    /** A click on a recent or trending suggestion, which are shown only while
      the query is blank: the query becomes that text and the suggestions
      give way to results. */
    method PickSuggestion(s: string)
      requires IsBlank(query)
      requires s in RecentSearches || s in Trending
      modifies this
      ensures query == s && !Shown().Suggestions?
    {
      SuggestionsNotBlank(s);
      query := s;
    }

    /** The overlay's open flag changed; closing it (the ESC button, the
      Escape key, the backdrop, or following a result) empties the query. */
    method OpenChanged(isOpen: bool)
      modifies this
      ensures query == if isOpen then old(query) else ""
    {
      if !isOpen {
        query := "";
      }
    }
  }
}
