/** The navigation menu and the four page renderers, with the markup as
    structured values: every field holds what the template would show
    (a looked-up text, an image file name, a style-class suffix). */
module Pages {
  import opened Texts
  import opened Roster
  import opened Sanitize

  /** The page identifiers, in menu order. */
  const PageIds: seq<string> := ["home", "characters", "guide", "tierlist"]

  /** The text key of each menu entry's label, in menu order. */
  const NavKeys: seq<string> := ["nav_home", "nav_chars", "nav_guide", "nav_tierlist"]

  /** One `nav-item` of the menu: the page it navigates to, its caption and
      whether it carries the `active` class. */
  datatype NavEntry = NavEntry(page: string, caption: Option<string>, active: bool)

  /** A card of the characters page: image file and display name. */
  datatype CharCard = CharCard(img: string, name: Option<string>)

  /** A section of the characters page: the position it groups, its
      localised heading and its cards. */
  datatype Section = Section(position: string, heading: Option<string>, cards: seq<CharCard>)

  /** A card of the tier grid: image file, `card-` class suffix (from the
      tier), `grade-` class suffix (from the grade), grade badge, name. */
  datatype TierCard = TierCard(img: string, cardClass: string, gradeClass: string,
                               grade: string, name: Option<string>)

  /** A `char-cell` of the grid: its column's position and its cards. */
  datatype Cell = Cell(position: string, cards: seq<TierCard>)

  /** A grid row: the tier, which is also the text of its label cell, the
      label's `t-` class suffix, and three cells. */
  datatype TierRow = TierRow(tier: string, labelClass: string, cells: seq<Cell>)

  /** What the content region (`app-view`) shows. `Initial` is whatever it
      holds before the first render. */
  datatype View =
    | Initial
    | Home(welcome: Option<string>, desc: Option<string>,
           updateTitle: Option<string>, update1: Option<string>, update2: Option<string>,
           tipTitle: Option<string>, tipDesc: Option<string>)
    | Characters(title: Option<string>, sections: seq<Section>)
    | Guide(title: Option<string>, roleTitle: Option<string>,
            wsDesc: Option<string>, seDesc: Option<string>, mbDesc: Option<string>,
            usageTitle: Option<string>, usageDesc: Option<string>)
    | TierList(title: Option<string>, headers: seq<Option<string>>, rows: seq<TierRow>)

  /** The navigation menu for `page`: four entries in fixed order, each
      active exactly when it is the current page. */
  function NavMenu(page: string, texts: Strings): (menu: seq<NavEntry>)
    ensures |menu| == |PageIds|
    ensures forall k :: 0 <= k < |menu| ==>
      menu[k].page == PageIds[k] && menu[k].caption == Lookup(texts, NavKeys[k]) &&
      (menu[k].active <==> page == PageIds[k])
  {
    [ NavEntry("home", Lookup(texts, "nav_home"), page == "home"),
      NavEntry("characters", Lookup(texts, "nav_chars"), page == "characters"),
      NavEntry("guide", Lookup(texts, "nav_guide"), page == "guide"),
      NavEntry("tierlist", Lookup(texts, "nav_tierlist"), page == "tierlist") ]
  }

  /** At most one menu entry is active, and one is exactly when the page is
      one of the four known pages. */
  lemma NavMenuActive(page: string, texts: Strings)
    ensures forall j, k ::
      (0 <= j < |PageIds| && 0 <= k < |PageIds| && NavMenu(page, texts)[j].active && NavMenu(page, texts)[k].active)
      ==> j == k
    ensures (exists k :: 0 <= k < |PageIds| && NavMenu(page, texts)[k].active) <==> page in PageIds
  {
    var menu := NavMenu(page, texts);
    assert PageIds[0][0] != PageIds[1][0] && PageIds[0][0] != PageIds[2][0] && PageIds[0][0] != PageIds[3][0];
    assert PageIds[1][0] != PageIds[2][0] && PageIds[1][0] != PageIds[3][0] && PageIds[2][0] != PageIds[3][0];
    if page in PageIds {
      var k :| 0 <= k < |PageIds| && PageIds[k] == page;
      assert menu[k].active;
    }
  }

  /** The home page: welcome text and the update and tip panels. */
  function HomePage(texts: Strings): (v: View)
    ensures v.Home?
  {
    Home(Lookup(texts, "home_welcome"), Lookup(texts, "home_desc"),
         Lookup(texts, "home_update_title"), Lookup(texts, "home_update_1"), Lookup(texts, "home_update_2"),
         Lookup(texts, "home_tip_title"), Lookup(texts, "home_tip_desc"))
  }

  /** The guide page: role descriptions and the usage tip. */
  function GuidePage(texts: Strings): (v: View)
    ensures v.Guide?
  {
    Guide(Lookup(texts, "guide_title"), Lookup(texts, "guide_role_title"),
          Lookup(texts, "guide_ws_desc"), Lookup(texts, "guide_se_desc"), Lookup(texts, "guide_mb_desc"),
          Lookup(texts, "guide_usage_title"), Lookup(texts, "guide_usage_desc"))
  }

  /** The card a record gets on the characters page. */
  function CharCardOf(c: Character, lang: string): CharCard
  {
    CharCard(c.img, Lookup(c.name, lang))
  }

  /** The cards of a sequence of records, one per record, in order. */
  function CharCards(members: seq<Character>, lang: string): (cards: seq<CharCard>)
  {
    seq(|members|, k requires 0 <= k < |members| => CharCardOf(members[k], lang))
  }

  /** The heading text keys of the three sections, in position order. */
  const PositionKeys: seq<string> := ["ws", "se", "mb"]

  /** The section of `Positions[k]`. */
  function SectionOf(roster: seq<Character>, texts: Strings, lang: string, k: nat): Section
    requires k < |Positions|
  {
    Section(Positions[k], Lookup(texts, PositionKeys[k]), CharCards(WithPosition(roster, Positions[k]), lang))
  }

  /** The characters page: a title and one section per position, in order. */
  function CharactersPage(roster: seq<Character>, texts: Strings, lang: string): (v: View)
    ensures v.Characters? && |v.sections| == |Positions|
  {
    Characters(Lookup(texts, "nav_chars"),
               [SectionOf(roster, texts, lang, 0), SectionOf(roster, texts, lang, 1), SectionOf(roster, texts, lang, 2)])
  }

  /** The characters page has exactly three sections, WS, SE, MB, each
      present even when empty; section k shows one card per roster record
      of position k, in roster order. */
  lemma CharactersPageShape(roster: seq<Character>, texts: Strings, lang: string)
    ensures CharactersPage(roster, texts, lang).Characters?
    ensures |CharactersPage(roster, texts, lang).sections| == 3
    ensures forall k :: 0 <= k < 3 ==>
      var s := CharactersPage(roster, texts, lang).sections[k];
      var members := WithPosition(roster, Positions[k]);
      && s.position == Positions[k]
      && |s.cards| == |members|
      && forall j :: 0 <= j < |members| ==>
           s.cards[j].img == members[j].img && s.cards[j].name == Lookup(members[j].name, lang)
  {
  }

  /** The `characters` branch of `render`: the sections are built position
      by position and each section card by card. */
  method BuildCharactersPage(roster: seq<Character>, texts: Strings, lang: string) returns (v: View)
    ensures v == CharactersPage(roster, texts, lang)
  {
    var sections: seq<Section> := [];
    var k := 0;
    while k < |Positions|
      invariant 0 <= k <= |Positions|
      invariant |sections| == k
      invariant forall i :: 0 <= i < k ==> sections[i] == SectionOf(roster, texts, lang, i)
    {
      var members := WithPosition(roster, Positions[k]);
      var cards: seq<CharCard> := [];
      var j := 0;
      while j < |members|
        invariant 0 <= j <= |members|
        invariant |cards| == j
        invariant forall i :: 0 <= i < j ==> cards[i] == CharCardOf(members[i], lang)
      {
        cards := cards + [CharCardOf(members[j], lang)];
        j := j + 1;
      }
      assert cards == CharCards(members, lang);
      sections := sections + [Section(Positions[k], Lookup(texts, PositionKeys[k]), cards)];
      k := k + 1;
    }
    v := Characters(Lookup(texts, "nav_chars"), sections);
  }

  /** The card a record gets in the grid row of tier `t`. */
  function TierCardOf(c: Character, t: string, lang: string): TierCard
  {
    TierCard(c.img, TierClass(t), GradeClass(c.grade), c.grade, Lookup(c.name, lang))
  }

  /** Grid cell (Tiers[i], Positions[j]): one card per matching record, in order. */
  function CellOf(roster: seq<Character>, lang: string, i: nat, j: nat): Cell
    requires i < |Tiers| && j < |Positions|
  {
    var members := InCell(roster, Tiers[i], Positions[j]);
    Cell(Positions[j], seq(|members|, k requires 0 <= k < |members| => TierCardOf(members[k], Tiers[i], lang)))
  }

  /** Grid row i: the tier, its class suffix and one cell per position. */
  function RowOf(roster: seq<Character>, lang: string, i: nat): TierRow
    requires i < |Tiers|
  {
    TierRow(Tiers[i], TierClass(Tiers[i]),
            seq(|Positions|, j requires 0 <= j < |Positions| => CellOf(roster, lang, i, j)))
  }

  /** The tier-list page: title, column headers and one row per tier. */
  function TierListPage(roster: seq<Character>, texts: Strings, lang: string): (v: View)
    ensures v.TierList? && |v.headers| == 4 && |v.rows| == |Tiers|
  {
    TierList(Lookup(texts, "nav_tierlist"),
             [Lookup(texts, "tier"), Lookup(texts, "ws"), Lookup(texts, "se"), Lookup(texts, "mb")],
             seq(|Tiers|, i requires 0 <= i < |Tiers| => RowOf(roster, lang, i)))
  }

  /** `renderTierList`: a row per tier, a cell per position, a card per
      matching record, emitted in that nested order. */
  method BuildTierList(roster: seq<Character>, texts: Strings, lang: string) returns (v: View)
    ensures v == TierListPage(roster, texts, lang)
  {
    var rows: seq<TierRow> := [];
    var i := 0;
    while i < |Tiers|
      invariant 0 <= i <= |Tiers|
      invariant |rows| == i
      invariant forall k :: 0 <= k < i ==> rows[k] == RowOf(roster, lang, k)
    {
      var t := Tiers[i];
      var cells: seq<Cell> := [];
      var j := 0;
      while j < |Positions|
        invariant 0 <= j <= |Positions|
        invariant |cells| == j
        invariant forall k :: 0 <= k < j ==> cells[k] == CellOf(roster, lang, i, k)
      {
        var members := InCell(roster, t, Positions[j]);
        var cards: seq<TierCard> := [];
        var n := 0;
        while n < |members|
          invariant 0 <= n <= |members|
          invariant |cards| == n
          invariant forall k :: 0 <= k < n ==> cards[k] == TierCardOf(members[k], t, lang)
        {
          var c := members[n];
          cards := cards + [TierCard(c.img, TierClass(t), GradeClass(c.grade), c.grade, Lookup(c.name, lang))];
          n := n + 1;
        }
        assert cards == seq(|members|, k requires 0 <= k < |members| => TierCardOf(members[k], t, lang));
        assert Cell(Positions[j], cards) == CellOf(roster, lang, i, j);
        cells := cells + [Cell(Positions[j], cards)];
        j := j + 1;
      }
      assert cells == seq(|Positions|, k requires 0 <= k < |Positions| => CellOf(roster, lang, i, k));
      assert TierRow(t, TierClass(t), cells) == RowOf(roster, lang, i);
      rows := rows + [TierRow(t, TierClass(t), cells)];
      i := i + 1;
    }
    assert rows == seq(|Tiers|, k requires 0 <= k < |Tiers| => RowOf(roster, lang, k));
    v := TierList(Lookup(texts, "nav_tierlist"),
                  [Lookup(texts, "tier"), Lookup(texts, "ws"), Lookup(texts, "se"), Lookup(texts, "mb")],
                  rows);
  }

  /** The grid always has four rows S+, S, A+, A, each with three cells WS,
      SE, MB, every cell present even when empty; cell (i, j) shows one card
      per roster record of tier i and position j, in roster order, with the
      sanitised tier and grade classes. */
  lemma TierListShape(roster: seq<Character>, texts: Strings, lang: string)
    ensures TierListPage(roster, texts, lang).TierList?
    ensures |TierListPage(roster, texts, lang).rows| == 4
    ensures forall i :: 0 <= i < 4 ==>
      var row := TierListPage(roster, texts, lang).rows[i];
      && row.tier == Tiers[i] && row.labelClass == TierClass(Tiers[i])
      && |row.cells| == 3
      && forall j :: 0 <= j < 3 ==>
           var cell := row.cells[j];
           var members := InCell(roster, Tiers[i], Positions[j]);
           && cell.position == Positions[j]
           && |cell.cards| == |members|
           && forall k :: 0 <= k < |members| ==>
                cell.cards[k] == TierCard(members[k].img, TierClass(Tiers[i]), GradeClass(members[k].grade),
                                          members[k].grade, Lookup(members[k].name, lang))
  {
  }

  /** Row i, cell j of the tier-list page is the cell of (Tiers[i], Positions[j]). */
  lemma GridCellAt(roster: seq<Character>, texts: Strings, lang: string, i: nat, j: nat)
    requires i < |Tiers| && j < |Positions|
    ensures |TierListPage(roster, texts, lang).rows| == |Tiers|
    ensures |TierListPage(roster, texts, lang).rows[i].cells| == |Positions|
    ensures TierListPage(roster, texts, lang).rows[i].cells[j] == CellOf(roster, lang, i, j)
  {
  }

  /** A one-record roster (WS, tier S, grade A+): the record shows up once,
      in cell (S, WS), with grade class `Aplus`; every other cell is empty. */
  lemma TierListOneRecord()
    ensures var roster := [Character(map["ko" := "A"], "WS", "S", "A+", "a.png")];
            var rows := TierListPage(roster, map[], "ko").rows;
            && rows[1].cells[0].cards == [TierCard("a.png", "S", "Aplus", "A+", Some("A"))]
            && forall i, j :: 0 <= i < 4 && 0 <= j < 3 && (i, j) != (1, 0) ==> rows[i].cells[j].cards == []
  {
    var c := Character(map["ko" := "A"], "WS", "S", "A+", "a.png");
    var roster := [c];
    var rows := TierListPage(roster, map[], "ko").rows;
    ListsDistinct();
    assert roster[1..] == [];
    forall i, j | 0 <= i < 4 && 0 <= j < 3 && (i, j) != (1, 0)
      ensures rows[i].cells[j].cards == []
    {
      GridCellAt(roster, map[], "ko", i, j);
      assert InCell(roster, Tiers[i], Positions[j]) == [];
    }
    GridCellAt(roster, map[], "ko", 1, 0);
    assert InCell(roster, Tiers[1], Positions[0]) == [c];
    SanitiseExamples();
    assert CellOf(roster, "ko", 1, 0).cards == [TierCardOf(c, "S", "ko")];
  }
}
