/** The academics page: the program catalogue with its level filter, and the
    avatar initials of the faculty spotlight. */
module Academics {
  import opened Seqs
  import Text

  /** The filter keys: "all" and the three levels a program is offered at. */
  datatype ProgramLevel = All | Undergraduate | Graduate | Online

  /** A program card, without its icon and colour fields; `popular` is false
      where the record leaves it out. */
  datatype Program = Program(
    id: nat,
    level: ProgramLevel,
    title: string,
    dept: string,
    duration: string,
    credits: string,
    popular: bool)

  // The programs, one constant each.
  const BscComputerScience := Program(1, Undergraduate, "BSc Computer Science", "Engineering & Tech", "4 years", "120", true)
  const BscBiology := Program(2, Undergraduate, "BSc Biology", "Natural Sciences", "4 years", "128", false)
  const MbaBusiness := Program(3, Graduate, "MBA Business Administration", "Business School", "2 years", "60", true)
  const BaFineArts := Program(4, Undergraduate, "BA Fine Arts", "Arts & Humanities", "4 years", "120", false)
  const MscDataScience := Program(5, Graduate, "MSc Data Science", "Engineering & Tech", "18 months", "45", true)
  const BaPoliticalScience := Program(6, Undergraduate, "BA Political Science", "Social Sciences", "4 years", "120", false)
  const BscInformationSystems := Program(7, Online, "BSc Information Systems", "Engineering & Tech", "4 years", "120", false)
  const MscPublicHealth := Program(8, Graduate, "MSc Public Health", "Health Sciences", "2 years", "54", false)
  const MbaOnline := Program(9, Online, "MBA (Online)", "Business School", "2 years", "60", true)

  /** The catalogue, in the order the cards are laid out. */
  const Programs: seq<Program> := [
    BscComputerScience, BscBiology, MbaBusiness, BaFineArts, MscDataScience,
    BaPoliticalScience, BscInformationSystems, MscPublicHealth, MbaOnline
  ]

  /** The filter the page opens with. */
  const InitialFilter: ProgramLevel := All

  // ---------------------------------------------------------------------------
  // The level filter

  /** The cards shown under filter `f`: the whole list under "all", otherwise
      the programs of that level (`FilteredIsExactView` adds order and
      multiplicity). */
  function Filtered(ps: seq<Program>, f: ProgramLevel): (r: seq<Program>)
    ensures f == All ==> r == ps
    ensures f != All ==> forall p :: p in r <==> p in ps && p.level == f
  {
    if f == All then ps else Filter(ps, (p: Program) => p.level == f)
  }

  /** Under a level filter, the cards are exactly the programs of that level,
      each as often as in the list and in list order. */
  lemma FilteredIsExactView(ps: seq<Program>, f: ProgramLevel)
    requires f != All
    ensures IsSubseq(Filtered(ps, f), ps)
    ensures forall p :: multiset(Filtered(ps, f))[p] == if p.level == f then multiset(ps)[p] else 0
  {
    FilterIsSubseq(ps, (p: Program) => p.level == f);
    FilterCount(ps, (p: Program) => p.level == f);
  }

  /** When no program is filed under "all", the three level views split the
      list: no program appears in two of them, every program appears in one,
      and their sizes add up to the length of the list. */
  lemma {:induction false} LevelViewsPartition(ps: seq<Program>)
    requires forall p :: p in ps ==> p.level != All
    ensures forall p :: p in ps ==>
              (p in Filtered(ps, Undergraduate)) || (p in Filtered(ps, Graduate)) || (p in Filtered(ps, Online))
    ensures forall p :: !(p in Filtered(ps, Undergraduate) && p in Filtered(ps, Graduate))
    ensures forall p :: !(p in Filtered(ps, Undergraduate) && p in Filtered(ps, Online))
    ensures forall p :: !(p in Filtered(ps, Graduate) && p in Filtered(ps, Online))
    ensures |Filtered(ps, Undergraduate)| + |Filtered(ps, Graduate)| + |Filtered(ps, Online)| == |ps|
  {
    if ps != [] {
      LevelViewsPartition(ps[1..]);
      assert ps[0] in ps;
    }
  }

  /** An index-based unfolding of the level filter, used for the seed views:
      a walk down the list from position `i` that keeps each program of
      level `f`. */
  function OfLevelFrom(ps: seq<Program>, i: nat, f: ProgramLevel): seq<Program>
    requires i <= |ps|
    decreases |ps| - i
  {
    if i == |ps| then [] else (if ps[i].level == f then [ps[i]] else []) + OfLevelFrom(ps, i + 1, f)
  }

  /** Under a level filter the page shows exactly the index-based walk. */
  lemma FilteredIsOfLevel(ps: seq<Program>, f: ProgramLevel)
    requires f != All
    ensures Filtered(ps, f) == OfLevelFrom(ps, 0, f)
  {
    FilterFromIsOfLevel(ps, 0, f);
    assert ps[0..] == ps;
  }

  lemma {:induction false} FilterFromIsOfLevel(ps: seq<Program>, i: nat, f: ProgramLevel)
    requires i <= |ps|
    ensures Filter(ps[i..], (p: Program) => p.level == f) == OfLevelFrom(ps, i, f)
    decreases |ps| - i
  {
    if i < |ps| {
      FilterFromIsOfLevel(ps, i + 1, f);
      assert ps[i..][0] == ps[i] && ps[i..][1..] == ps[i + 1..];
    }
  }

  /** The levels of the seed catalogue, position by position. */
  predicate SeedLevels(ps: seq<Program>)
  {
    |ps| == 9 &&
    ps[0].level == Undergraduate && ps[1].level == Undergraduate && ps[2].level == Graduate &&
    ps[3].level == Undergraduate && ps[4].level == Graduate && ps[5].level == Undergraduate &&
    ps[6].level == Online && ps[7].level == Graduate && ps[8].level == Online
  }

  lemma SeedLevelsHold()
    ensures SeedLevels(Programs)
  {
  }

  /** No program of a list with the seed levels is filed under "all". */
  lemma SeedLevelsNoAll(ps: seq<Program>)
    requires SeedLevels(ps)
    ensures forall p :: p in ps ==> p.level != All
  {
  }

  lemma UndergraduateOfSeed(ps: seq<Program>)
    requires SeedLevels(ps)
    ensures OfLevelFrom(ps, 0, Undergraduate) == [ps[0], ps[1], ps[3], ps[5]]
  {
    var f := Undergraduate;
    assert OfLevelFrom(ps, 9, f) == [];
    assert OfLevelFrom(ps, 8, f) == [];
    assert OfLevelFrom(ps, 7, f) == [];
    assert OfLevelFrom(ps, 6, f) == [];
    assert OfLevelFrom(ps, 5, f) == [ps[5]];
    assert OfLevelFrom(ps, 4, f) == [ps[5]];
    assert OfLevelFrom(ps, 3, f) == [ps[3], ps[5]];
    assert OfLevelFrom(ps, 2, f) == [ps[3], ps[5]];
    assert OfLevelFrom(ps, 1, f) == [ps[1], ps[3], ps[5]];
  }

  lemma GraduateOfSeed(ps: seq<Program>)
    requires SeedLevels(ps)
    ensures OfLevelFrom(ps, 0, Graduate) == [ps[2], ps[4], ps[7]]
  {
    var f := Graduate;
    assert OfLevelFrom(ps, 9, f) == [];
    assert OfLevelFrom(ps, 8, f) == [];
    assert OfLevelFrom(ps, 7, f) == [ps[7]];
    assert OfLevelFrom(ps, 6, f) == [ps[7]];
    assert OfLevelFrom(ps, 5, f) == [ps[7]];
    assert OfLevelFrom(ps, 4, f) == [ps[4], ps[7]];
    assert OfLevelFrom(ps, 3, f) == [ps[4], ps[7]];
    assert OfLevelFrom(ps, 2, f) == [ps[2], ps[4], ps[7]];
    assert OfLevelFrom(ps, 1, f) == [ps[2], ps[4], ps[7]];
  }

  lemma OnlineOfSeed(ps: seq<Program>)
    requires SeedLevels(ps)
    ensures OfLevelFrom(ps, 0, Online) == [ps[6], ps[8]]
  {
    var f := Online;
    assert OfLevelFrom(ps, 9, f) == [];
    assert OfLevelFrom(ps, 8, f) == [ps[8]];
    assert OfLevelFrom(ps, 7, f) == [ps[8]];
    assert OfLevelFrom(ps, 6, f) == [ps[6], ps[8]];
    assert OfLevelFrom(ps, 5, f) == [ps[6], ps[8]];
    assert OfLevelFrom(ps, 4, f) == [ps[6], ps[8]];
    assert OfLevelFrom(ps, 3, f) == [ps[6], ps[8]];
    assert OfLevelFrom(ps, 2, f) == [ps[6], ps[8]];
    assert OfLevelFrom(ps, 1, f) == [ps[6], ps[8]];
  }

  /** The seed catalogue: four undergraduate, three graduate and two online
      programs, in list order. */
  lemma SeedViews()
    ensures Filtered(Programs, Undergraduate) == [BscComputerScience, BscBiology, BaFineArts, BaPoliticalScience]
    ensures Filtered(Programs, Graduate) == [MbaBusiness, MscDataScience, MscPublicHealth]
    ensures Filtered(Programs, Online) == [BscInformationSystems, MbaOnline]
  {
    SeedLevelsHold();
    UndergraduateOfSeed(Programs);
    GraduateOfSeed(Programs);
    OnlineOfSeed(Programs);
    FilteredIsOfLevel(Programs, Undergraduate);
    FilteredIsOfLevel(Programs, Graduate);
    FilteredIsOfLevel(Programs, Online);
  }

  /** The seed views have sizes 4, 3 and 2, the opening filter shows all
      nine programs, and the three views split them. */
  lemma SeedViewSizes()
    ensures |Filtered(Programs, InitialFilter)| == 9
    ensures |Filtered(Programs, Undergraduate)| == 4
    ensures |Filtered(Programs, Graduate)| == 3
    ensures |Filtered(Programs, Online)| == 2
    ensures forall p :: p in Programs ==>
              (p in Filtered(Programs, Undergraduate)) || (p in Filtered(Programs, Graduate)) || (p in Filtered(Programs, Online))
  {
    SeedViews();
    SeedLevelsHold();
    SeedLevelsNoAll(Programs);
    LevelViewsPartition(Programs);
  }

  // ---------------------------------------------------------------------------
  // Initials

  /** The first character of every word, in order, with nothing for an
      empty word: `words.map((n) => n[0]).join("")`, where `n[0]` of an empty
      word is `undefined` and `join` writes it as nothing. */
  function Heads(words: seq<string>): (r: string)
    ensures |r| <= |words|
  {
    if words == [] then []
    else (if words[0] == [] then [] else [words[0][0]]) + Heads(words[1..])
  }

  /** The reference reading of "the first letter of each word": a scan that
      emits every non-space character that starts the text or follows a
      space. `atStart` says whether the previous character was a space (or
      there was none). */
  function WordStarts(s: string, atStart: bool): (r: string)
    ensures forall c :: c in r ==> c in s && c != ' '
  {
    if s == [] then []
    else if s[0] == ' ' then WordStarts(s[1..], true)
    else (if atStart then [s[0]] else []) + WordStarts(s[1..], false)
  }

  /** `s.slice(0, n)`. */
  function Take(s: string, n: nat): (r: string)
    ensures |r| == if |s| <= n then |s| else n
    ensures r == s[..|r|]
  {
    if |s| <= n then s else s[..n]
  }

  /** The avatar initials of a faculty name:
      `name.split(" ").map((n) => n[0]).join("").slice(0, 2)`. */
  function Initials(name: string): (r: string)
    ensures |r| <= 2
    ensures r == Take(WordStarts(name, true), 2)
    ensures forall c :: c in r ==> c in name && c != ' '
  {
    HeadsOfSplit(name);
    Take(Heads(Text.Split(name, ' ')), 2)
  }

  /** Splitting on spaces and taking the first character of each word finds
      the same characters as the scan: the word starts, in order, with empty
      words contributing nothing. The second half is the same fact for the
      words after the first, whose first character is never a word start. */
  lemma {:induction false} HeadsOfSplit(s: string)
    ensures Heads(Text.Split(s, ' ')) == WordStarts(s, true)
    ensures Heads(Text.Split(s, ' ')[1..]) == WordStarts(s, false)
  {
    if s != [] {
      HeadsOfSplit(s[1..]);
      var rest := Text.Split(s[1..], ' ');
      if s[0] == ' ' {
        assert Text.Split(s, ' ') == [[]] + rest;
        assert ([[]] + rest)[1..] == rest;
      } else {
        var w := [s[0]] + rest[0];
        assert Text.Split(s, ' ') == [w] + rest[1..];
        assert ([w] + rest[1..])[1..] == rest[1..];
        assert Heads(rest) == (if rest[0] == [] then [] else [rest[0][0]]) + Heads(rest[1..]);
      }
    }
  }

  /** The faculty spotlight names. */
  const FacultyNames: seq<string> := ["Dr. Sarah Evans", "Prof. James Carter", "Dr. Priya Mehta", "Prof. Leon Schmidt"]

  /** Scanning a longer text finds the word starts of its beginning first. */
  lemma {:induction false} WordStartsPrefix(a: string, b: string, atStart: bool)
    ensures |WordStarts(a, atStart)| <= |WordStarts(a + b, atStart)|
    ensures WordStarts(a + b, atStart)[..|WordStarts(a, atStart)|] == WordStarts(a, atStart)
  {
    if a != [] {
      assert (a + b)[0] == a[0] && (a + b)[1..] == a[1..] + b;
      WordStartsPrefix(a[1..], b, a[0] == ' ');
    }
  }

  /** Two word starts at the head of a name fix its initials. */
  lemma InitialsFromHead(name: string, head: string)
    requires |head| <= |name| && name[..|head|] == head
    requires |WordStarts(head, true)| == 2
    ensures Initials(name) == WordStarts(head, true)
  {
    assert name == head + name[|head|..];
    WordStartsPrefix(head, name[|head|..], true);
  }

  /** The word starts of two texts in a row: those of the first, then those
      of the second, which starts a word exactly when the first is empty (and
      `atStart` held) or ends in a space. */
  lemma {:induction false} WordStartsAppend(a: string, b: string, atStart: bool)
    ensures WordStarts(a + b, atStart)
            == WordStarts(a, atStart) + WordStarts(b, if a == [] then atStart else a[|a| - 1] == ' ')
  {
    if a != [] {
      assert (a + b)[0] == a[0] && (a + b)[1..] == a[1..] + b;
      WordStartsAppend(a[1..], b, a[0] == ' ');
      if |a| > 1 {
        assert a[1..][|a[1..]| - 1] == a[|a| - 1];
      }
    } else {
      assert a + b == b;
    }
  }

  /** A text without spaces has one word start, its first character, when it
      starts a word, and none otherwise. */
  lemma {:induction false} WordStartsOneWord(w: string, atStart: bool)
    requires ' ' !in w
    ensures WordStarts(w, atStart) == if atStart && w != [] then [w[0]] else []
  {
    if w != [] {
      assert ' ' !in w[1..];
      WordStartsOneWord(w[1..], false);
    }
  }

  /** A name made of a title without spaces, a space, and a word starting
      with `c` has the title's first character and `c` as its initials. */
  lemma TitleInitials(name: string, title: string, c: char)
    requires title != [] && ' ' !in title && c != ' '
    requires |title| + 2 <= |name| && name[..|title| + 2] == title + " " + [c]
    ensures Initials(name) == [title[0], c]
  {
    var head := title + " " + [c];
    assert head == title + (" " + [c]);
    WordStartsAppend(title, " " + [c], true);
    WordStartsOneWord(title, true);
    var rest := " " + [c];
    assert rest[0] == ' ' && rest[1..] == [c] && [c][1..] == [];
    assert WordStarts([c], true) == [c] + WordStarts([], false);
    assert WordStarts(rest, false) == WordStarts([c], true);
    InitialsFromHead(name, head);
  }

  /** The initials shown on the faculty cards, in card order. */
  const ShownInitials: seq<string> := ["DS", "PJ", "DP", "PL"]

  /** Each faculty card shows the first letters of the title and the first
      name, since the titles count as words. */
  lemma FacultyInitials(i: nat)
    requires i < |FacultyNames|
    ensures Initials(FacultyNames[i]) == ShownInitials[i]
  {
    var n := FacultyNames[i];
    if i == 0 {
      assert n[..5] == "Dr. S";
      TitleInitials(n, "Dr.", 'S');
    } else if i == 1 {
      assert n[..7] == "Prof. J";
      TitleInitials(n, "Prof.", 'J');
    } else if i == 2 {
      assert n[..5] == "Dr. P";
      TitleInitials(n, "Dr.", 'P');
    } else {
      assert n[..7] == "Prof. L";
      TitleInitials(n, "Prof.", 'L');
    }
  }
}
