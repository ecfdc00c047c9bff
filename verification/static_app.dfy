/** The server-rendered page's script: page switching over marked elements, keyboard
    shortcuts, the chatbot and mobile-menu toggles, and the search box. DOM elements are
    reduced to an identifier and an `active` flag; the 100 ms deferral that wraps page
    switching is not modelled. */
module StaticApp {
  import opened Wrappers
  import opened Text
  import opened Routing
  import opened FlaskSearch

  /** A navigation item (identified by its `data-page`) or a page section (by its `id`). */
  datatype Element = Element(id: string, active: bool)

  /** Marks active exactly the elements identified by `page`, whatever they were before. */
  function MarkActive(els: seq<Element>, page: string): (r: seq<Element>)
    ensures |r| == |els|
    ensures forall i :: 0 <= i < |els| ==> r[i].id == els[i].id && (r[i].active <==> els[i].id == page)
  {
    seq(|els|, i requires 0 <= i < |els| => Element(els[i].id, els[i].id == page))
  }

  /** The previous flags are forgotten, and marking again for the same page changes nothing. */
  lemma MarkActiveForgets(els: seq<Element>, other: seq<Element>, page: string)
    requires |other| == |els| && forall i :: 0 <= i < |els| ==> other[i].id == els[i].id
    ensures MarkActive(other, page) == MarkActive(els, page)
    ensures MarkActive(MarkActive(els, page), page) == MarkActive(els, page)
  {
  }

  /** With distinct identifiers at most one element is active afterwards. */
  lemma MarkActiveSingle(els: seq<Element>, page: string)
    requires forall i, j :: 0 <= i < j < |els| ==> els[i].id != els[j].id
    ensures forall i, j :: 0 <= i < j < |els| && MarkActive(els, page)[i].active ==> !MarkActive(els, page)[j].active
  {
  }

  datatype App = App(currentPage: string, navItems: seq<Element>, pages: seq<Element>,
                     chatbotOpen: bool, mobileMenuOpen: bool)

  /** Switching pages: the current page, the nav items' and the sections' flags follow `page`. */
  function NavigateToPage(st: App, page: string): (r: App)
    ensures r.currentPage == page && r.chatbotOpen == st.chatbotOpen && r.mobileMenuOpen == st.mobileMenuOpen
    ensures r.navItems == MarkActive(st.navItems, page) && r.pages == MarkActive(st.pages, page)
  {
    st.(currentPage := page, navItems := MarkActive(st.navItems, page), pages := MarkActive(st.pages, page))
  }

  /** Clicking nav item `i` switches to its page and closes the mobile menu. */
  function ClickNavItem(st: App, i: nat): (r: App)
    requires i < |st.navItems|
    ensures r.currentPage == st.navItems[i].id && !r.mobileMenuOpen && r.chatbotOpen == st.chatbotOpen
    ensures |r.navItems| == |st.navItems|
    ensures forall j :: 0 <= j < |st.navItems| ==> (r.navItems[j].active <==> st.navItems[j].id == st.navItems[i].id)
  {
    NavigateToPage(st, st.navItems[i].id).(mobileMenuOpen := false)
  }

  function ToggleChatbot(st: App): (r: App)
    ensures r.chatbotOpen != st.chatbotOpen && r.(chatbotOpen := st.chatbotOpen) == st
  {
    st.(chatbotOpen := !st.chatbotOpen)
  }

  function ToggleMobileMenu(st: App): (r: App)
    ensures r.mobileMenuOpen != st.mobileMenuOpen && r.(mobileMenuOpen := st.mobileMenuOpen) == st
  {
    st.(mobileMenuOpen := !st.mobileMenuOpen)
  }

  /** A key press with its modifier flags. */
  datatype KeyPress = KeyPress(key: string, ctrlKey: bool, metaKey: bool)

  /** The digit shortcuts: '1' to '5' name the five pages in navigation order. */
  function ShortcutPage(key: string): (r: Option<string>)
    ensures r.Some? <==> key in ["1", "2", "3", "4", "5"]
    ensures r.Some? ==> r.value in NavIds
  {
    if key == "1" then Some("home")
    else if key == "2" then Some("features")
    else if key == "3" then Some("api-docs")
    else if key == "4" then Some("use-cases")
    else if key == "5" then Some("contact")
    else None
  }

  /** The shortcut for digit `n` is the `n`-th navigation id. */
  lemma ShortcutIsNavOrder(n: nat)
    requires 1 <= n <= 5
    ensures ShortcutPage([(('0' as int) + n) as char]) == Some(NavIds[n - 1])
  {
  }

  /** The key handler: Escape closes an open chatbot; then Ctrl or Meta plus a digit shortcut switches pages. */
  function KeyDown(st: App, k: KeyPress): App
  {
    var closed := if k.key == "Escape" && st.chatbotOpen then ToggleChatbot(st) else st;
    if (k.ctrlKey || k.metaKey) && ShortcutPage(k.key).Some? then NavigateToPage(closed, ShortcutPage(k.key).value)
    else closed
  }

  /** Escape only ever closes the chatbot: it leaves a closed one closed and changes nothing else. */
  lemma EscapeOnlyCloses(st: App, ctrl: bool, meta: bool)
    ensures !KeyDown(st, KeyPress("Escape", ctrl, meta)).chatbotOpen
    ensures KeyDown(st, KeyPress("Escape", ctrl, meta)).(chatbotOpen := st.chatbotOpen) == st
    ensures !st.chatbotOpen ==> KeyDown(st, KeyPress("Escape", ctrl, meta)) == st
  {
  }

  /** A key switches pages exactly when a modifier is held and the key is one of the five digits. */
  lemma KeyNavigatesIff(st: App, k: KeyPress)
    requires k.key != "Escape"
    ensures KeyDown(st, k) != st && KeyDown(st, k).currentPage != st.currentPage ==>
              (k.ctrlKey || k.metaKey) && k.key in ["1", "2", "3", "4", "5"]
    ensures (k.ctrlKey || k.metaKey) && ShortcutPage(k.key).Some? ==>
              KeyDown(st, k) == NavigateToPage(st, ShortcutPage(k.key).value)
    ensures !(k.ctrlKey || k.metaKey) || ShortcutPage(k.key).None? ==> KeyDown(st, k) == st
  {
  }

  // ---- The search box ----

  const EnterName := "Please enter a disease name"
  const NoMatch := "No matching disease found. Try another search term."
  const SearchFailed := "Search failed. Please try again."

  /** What the search box shows: a found row's two codes, or a message. */
  datatype SearchView = ShowCodes(namaste: string, icd11: string) | ShowError(message: string)

  /** The outcome of a search: the view and the query sent to the server, if any. */
  datatype SearchOutcome = SearchOutcome(view: SearchView, request: Option<string>)

  /** `performSearch`; `server` is the endpoint's answer to a query, `None` when the request fails. */
  function PerformSearch(input: string, server: string -> Option<SearchBody>): (r: SearchOutcome)
    ensures IsBlank(input) <==> r.request.None?
    ensures IsBlank(input) ==> r.view == ShowError(EnterName)
    ensures !IsBlank(input) ==> r.request == Some(Trim(input))
    ensures !IsBlank(input) && server(Trim(input)).None? ==> r.view == ShowError(SearchFailed)
    ensures !IsBlank(input) && server(Trim(input)).Some? ==> var body := server(Trim(input)).value;
              r.view == if body.error.Some? && body.error.value != "" then ShowError(body.error.value)
                        else if body.results != [] then ShowCodes(body.results[0].namaste, body.results[0].icd11)
                        else ShowError(NoMatch)
  {
    var query := Trim(input);
    if query == "" then SearchOutcome(ShowError(EnterName), None)
    else
      var view := match server(query)
        case None => ShowError(SearchFailed)
        case Some(body) =>
          if body.error.Some? && body.error.value != "" then ShowError(body.error.value)
          else if body.results != [] then ShowCodes(body.results[0].namaste, body.results[0].icd11)
          else ShowError(NoMatch);
      SearchOutcome(view, Some(query))
  }

  /** Against the Flask endpoint: the page never provokes the missing-query error, and it shows
      the codes of the first row the endpoint finds, or the no-match message. */
  lemma SearchAgainstFlask(rows: seq<DiseaseRow>, input: string)
    requires !IsBlank(input)
    ensures var r := PerformSearch(input, (q: string) => Some(SearchResponse(rows, Some(q))));
            var found := SearchDisease(rows, Some(Trim(input)));
            && found.Ok?
            && r.view != ShowError(QueryRequired)
            && (found.value != [] ==> r.view == ShowCodes(found.value[0].namaste, found.value[0].icd11))
            && (found.value == [] ==> r.view == ShowError(NoMatch))
  {
  }
}
