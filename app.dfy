/** The view state machine and the render orchestrator. */
module Orchestrator {
  import opened Texts
  import opened Roster
  import opened Pages

  /** The two regions a render writes: the navigation menu (`nav-menu`)
      and the content region (`app-view`). */
  datatype Screen = Screen(menu: seq<NavEntry>, view: View)

  /** The content a known page renders to; `None` for any other page, for
      which the renderer has no branch. */
  function PageView(page: string, roster: seq<Character>, texts: Strings, lang: string): (v: Option<View>)
    ensures v.Some? <==> page in PageIds
  {
    if page == "home" then Some(HomePage(texts))
    else if page == "characters" then Some(CharactersPage(roster, texts, lang))
    else if page == "guide" then Some(GuidePage(texts))
    else if page == "tierlist" then Some(TierListPage(roster, texts, lang))
    else None
  }

  /** The screen after one render in state (lang, page), given the screen
      before it. */
  function RenderOutcome(lang: string, page: string, roster: seq<Character>, table: Table, before: Screen): (after: Screen)
    ensures lang in table ==> after.menu == NavMenu(page, table[lang])
    ensures lang !in table || page !in PageIds ==> after.view == before.view
  {
    if lang !in table then before
    else
      var texts := table[lang];
      match PageView(page, roster, texts, lang)
      case Some(v) => Screen(NavMenu(page, texts), v)
      case None => Screen(NavMenu(page, texts), before.view)
  }

  /** With no strings for the current language, a render writes nothing. */
  lemma RenderGuard(lang: string, page: string, roster: seq<Character>, table: Table, before: Screen)
    requires lang !in table
    ensures RenderOutcome(lang, page, roster, table, before) == before
  {
  }

  /** With strings for the language, the menu is always rebuilt; the content
      region shows the page's content for a known page and is left as it was
      for any other page. */
  lemma RenderDispatch(lang: string, page: string, roster: seq<Character>, table: Table, before: Screen)
    requires lang in table
    ensures RenderOutcome(lang, page, roster, table, before).menu == NavMenu(page, table[lang])
    ensures page == "home" ==> RenderOutcome(lang, page, roster, table, before).view == HomePage(table[lang])
    ensures page == "characters" ==>
      RenderOutcome(lang, page, roster, table, before).view == CharactersPage(roster, table[lang], lang)
    ensures page == "guide" ==> RenderOutcome(lang, page, roster, table, before).view == GuidePage(table[lang])
    ensures page == "tierlist" ==>
      RenderOutcome(lang, page, roster, table, before).view == TierListPage(roster, table[lang], lang)
    ensures page !in PageIds ==> RenderOutcome(lang, page, roster, table, before).view == before.view
  {
  }

  /** The home and guide screens depend only on the language's strings:
      neither the roster nor what was shown before makes a difference. */
  lemma StaticPagesIndependent(lang: string, table: Table, r1: seq<Character>, r2: seq<Character>,
                               b1: Screen, b2: Screen)
    requires lang in table
    ensures RenderOutcome(lang, "home", r1, table, b1) == RenderOutcome(lang, "home", r2, table, b2)
    ensures RenderOutcome(lang, "guide", r1, table, b1) == RenderOutcome(lang, "guide", r2, table, b2)
  {
  }

  /** Rendering the same state twice gives the same screen as rendering it once. */
  lemma RenderIdempotent(lang: string, page: string, roster: seq<Character>, table: Table, before: Screen)
    ensures var once := RenderOutcome(lang, page, roster, table, before);
            RenderOutcome(lang, page, roster, table, once) == once
  {
  }

  /** Going to another page and back to a known page restores exactly the
      screen a direct render of that page gives: nothing of the page visited
      in between remains. */
  lemma NavigateBackRestores(lang: string, p: string, q: string, roster: seq<Character>, table: Table, before: Screen)
    requires q in PageIds
    ensures RenderOutcome(lang, q, roster, table, RenderOutcome(lang, p, roster, table, before))
         == RenderOutcome(lang, q, roster, table, before)
  {
  }

  /** The application: the view state (`currentLang`, `currentPage`), the
      loaded data, and the two regions renders write to. */
  class App {
    var lang: string
    var page: string
    var characters: seq<Character>
    var translations: Table
    var menu: seq<NavEntry>
    var view: View

    /** The state at start-up, before any data has loaded: language "ko",
        page "home", an empty roster and an empty translation table. */
    constructor ()
      ensures lang == "ko" && page == "home"
      ensures characters == [] && translations == map[]
      ensures menu == [] && view == Initial
    {
      lang := "ko";
      page := "home";
      characters := [];
      translations := map[];
      menu := [];
      view := Initial;
    }

    /** The success path of `initApp`: both documents are stored and the
        first render runs in whatever state the view has reached by then
        ("ko" and "home" unless a language or page change came in while the
        fetches were pending). */
    method Load(roster: seq<Character>, table: Table)
      modifies this
      ensures characters == roster && translations == table
      ensures lang == old(lang) && page == old(page)
      ensures Screen(menu, view) == RenderOutcome(old(lang), old(page), roster, table, old(Screen(menu, view)))
    {
      characters := roster;
      translations := table;
      Render();
    }

    /** `render()`: abort without writing when the language has no strings;
        otherwise rebuild the menu and render the current page. */
    method Render()
      modifies this`menu, this`view
      ensures Screen(menu, view) == RenderOutcome(lang, page, characters, translations, old(Screen(menu, view)))
    {
      if lang !in translations {
        return;
      }
      var texts := translations[lang];
      menu := NavMenu(page, texts);
      if page == "home" {
        view := HomePage(texts);
      } else if page == "characters" {
        view := BuildCharactersPage(characters, texts, lang);
      } else if page == "guide" {
        view := GuidePage(texts);
      } else if page == "tierlist" {
        view := BuildTierList(characters, texts, lang);
      }
    }

    /** `changeLang(l)`: only the language is overwritten, then a render. */
    method ChangeLang(l: string)
      modifies this
      ensures lang == l && page == old(page)
      ensures characters == old(characters) && translations == old(translations)
      ensures Screen(menu, view) == RenderOutcome(l, old(page), characters, translations, old(Screen(menu, view)))
    {
      lang := l;
      Render();
    }

    /** `navigateTo(p)`: only the page is overwritten, then a render. */
    method NavigateTo(p: string)
      modifies this
      ensures page == p && lang == old(lang)
      ensures characters == old(characters) && translations == old(translations)
      ensures Screen(menu, view) == RenderOutcome(old(lang), p, characters, translations, old(Screen(menu, view)))
    {
      page := p;
      Render();
    }
  }

  /** A session in which the table has strings for "ko" only: switching to
      "en" keeps the language and page change but leaves both regions
      exactly as the last render left them. */
  method UnknownLanguageSession(roster: seq<Character>, ko: Strings)
  {
    var app := new App();
    app.Load(roster, map["ko" := ko]);
    assert app.view == HomePage(ko);
    app.NavigateTo("guide");
    var shown := Screen(app.menu, app.view);
    assert shown.view == GuidePage(ko);
    app.ChangeLang("en");
    assert app.lang == "en" && app.page == "guide";
    assert Screen(app.menu, app.view) == shown;
  }

  /** A language chosen while the data is still loading renders nothing
      then (the table is still empty), and the first render after loading
      uses that language rather than "ko". */
  method LanguageChosenWhileLoading(roster: seq<Character>, ko: Strings, en: Strings)
  {
    var app := new App();
    app.ChangeLang("en");
    assert app.menu == [] && app.view == Initial;
    app.Load(roster, map["ko" := ko, "en" := en]);
    assert app.lang == "en" && app.page == "home";
    assert app.view == HomePage(en) && app.menu == NavMenu("home", en);
  }
}
