/** Page routing of the React application: the page switch, the navigation bar's
    highlighting, the standalone navigation component with its mobile menu, and the
    two tiny pieces of state of the basic application shell (the chatbot button and
    the basic contact form). */
module Routing {
  import opened Seqs

  datatype Page = Home | Features | ApiDocs | UseCases | Contact

  /** The navigation id of each page. */
  function PageId(p: Page): string
  {
    match p
    case Home => "home"
    case Features => "features"
    case ApiDocs => "api-docs"
    case UseCases => "use-cases"
    case Contact => "contact"
  }

  /** The pages in navigation-bar order. */
  const Pages: seq<Page> := [Home, Features, ApiDocs, UseCases, Contact]

  /** The navigation item ids, in order (both navigation bars use the same list). */
  const NavIds: seq<string> := ["home", "features", "api-docs", "use-cases", "contact"]

  lemma NavIdsArePageIds()
    ensures NavIds == Map(Pages, PageId)
    ensures Distinct(NavIds)
  {
  }

  /** The page switch: each known id selects its page, anything else the landing page. */
  function RenderPage(current: string): (r: Page)
    ensures current in NavIds ==> PageId(r) == current
    ensures current !in NavIds ==> r == Home
  {
    if current == "home" then Home
    else if current == "features" then Features
    else if current == "api-docs" then ApiDocs
    else if current == "use-cases" then UseCases
    else if current == "contact" then Contact
    else Home
  }

  /** Rendering a page's own id gives that page back. */
  lemma RenderPageId(p: Page)
    ensures RenderPage(PageId(p)) == p
  {
  }

  /** The highlight flag of every navigation item for the current page. */
  function Highlights(current: string): (r: seq<bool>)
    ensures |r| == |NavIds|
    ensures forall i :: 0 <= i < |NavIds| ==> (r[i] <==> NavIds[i] == current)
  {
    Map(NavIds, (id: string) => id == current)
  }

  /** At most one item is highlighted, and exactly one when the page is a known id. */
  lemma AtMostOneHighlighted(current: string)
    ensures forall i, j :: 0 <= i < j < |NavIds| && Highlights(current)[i] ==> !Highlights(current)[j]
    ensures (exists i :: 0 <= i < |NavIds| && Highlights(current)[i]) <==> current in NavIds
  {
    NavIdsArePageIds();
    if current in NavIds {
      var i :| 0 <= i < |NavIds| && NavIds[i] == current;
      assert Highlights(current)[i];
    }
  }

  // ---- The standalone navigation component ----

  /** The page id held by the application plus the component's mobile-menu flag. */
  datatype Nav = Nav(currentPage: string, mobileMenuOpen: bool)

  const NavInitial := Nav("home", false)

  /** A desktop item click: the page changes, the menu does not. */
  function DesktopClick(st: Nav, i: nat): (r: Nav)
    requires i < |NavIds|
    ensures r.currentPage == NavIds[i] && r.mobileMenuOpen == st.mobileMenuOpen
  {
    st.(currentPage := NavIds[i])
  }

  /** A mobile item click: the page changes and the menu closes. */
  function MobileClick(st: Nav, i: nat): (r: Nav)
    requires i < |NavIds|
    ensures r.currentPage == NavIds[i] && !r.mobileMenuOpen
  {
    Nav(NavIds[i], false)
  }

  /** The menu button. */
  function ToggleMenu(st: Nav): (r: Nav)
    ensures r.mobileMenuOpen != st.mobileMenuOpen && r.currentPage == st.currentPage
  {
    st.(mobileMenuOpen := !st.mobileMenuOpen)
  }

  lemma ToggleMenuTwice(st: Nav)
    ensures ToggleMenu(ToggleMenu(st)) == st
  {
  }

  /** After clicking item `i` (either bar), item `i` alone is highlighted and its page is shown. */
  lemma ClickHighlightsItem(st: Nav, i: nat)
    requires i < |NavIds|
    ensures var r := DesktopClick(st, i);
            RenderPage(r.currentPage) == Pages[i]
            && forall j :: 0 <= j < |NavIds| ==> (Highlights(r.currentPage)[j] <==> j == i)
    ensures MobileClick(st, i).currentPage == DesktopClick(st, i).currentPage
  {
    NavIdsArePageIds();
    RenderPageId(Pages[i]);
  }

  /** Every state reachable through clicks and toggles shows a known page. */
  ghost predicate NavInv(st: Nav) { st.currentPage in NavIds }

  lemma NavInvPreserved(st: Nav, i: nat)
    requires NavInv(st) && i < |NavIds|
    ensures NavInv(NavInitial)
    ensures NavInv(DesktopClick(st, i)) && NavInv(MobileClick(st, i)) && NavInv(ToggleMenu(st))
    ensures PageId(RenderPage(st.currentPage)) == st.currentPage
  {
  }

  // ---- The basic application shell ----

  /** The floating chatbot button flips the open flag. */
  function ToggleChatbot(isOpen: bool): (r: bool)
    ensures r != isOpen
  {
    !isOpen
  }

  lemma ToggleChatbotTwice(isOpen: bool)
    ensures ToggleChatbot(ToggleChatbot(isOpen)) == isOpen
  {
  }

  /** The basic contact form's fields. */
  datatype BasicForm = BasicForm(name: string, email: string, message: string)

  const BlankBasicForm := BasicForm("", "", "")

  /** All three fields are `required`, and the form does not opt out of validation, so the browser
      runs the submit handler only when none of them is empty. */
  predicate BasicCanSubmit(f: BasicForm)
  {
    f.name != "" && f.email != "" && f.message != ""
  }

  /** Submitting the basic contact form: when every required field is filled in, the handler empties
      all three (the alert is not modelled); otherwise the browser blocks it and nothing changes. */
  function SubmitBasicForm(f: BasicForm): (r: BasicForm)
    ensures BasicCanSubmit(f) ==> r.name == "" && r.email == "" && r.message == ""
    ensures !BasicCanSubmit(f) ==> r == f
    ensures !BasicCanSubmit(r)
  {
    if BasicCanSubmit(f) then BlankBasicForm else f
  }

  /** Edits to each field, and the submit event. */
  datatype BasicEvent = EditName(name: string) | EditEmail(email: string) | EditMessage(message: string) | SubmitBasic

  function BasicStep(f: BasicForm, ev: BasicEvent): BasicForm
  {
    match ev
    case EditName(v) => f.(name := v)
    case EditEmail(v) => f.(email := v)
    case EditMessage(v) => f.(message := v)
    case SubmitBasic => SubmitBasicForm(f)
  }

  /** A submit changes the form exactly when every required field is filled in, and then it blanks
      the form, so a second submit is blocked and changes nothing. */
  lemma SubmitBasicFormIdempotent(f: BasicForm)
    ensures SubmitBasicForm(f) != f <==> BasicCanSubmit(f)
    ensures SubmitBasicForm(SubmitBasicForm(f)) == SubmitBasicForm(f)
  {
  }

  /** Filling in the three fields and submitting always ends with a blank form; leaving any of them
      empty keeps everything that was typed. */
  lemma BasicFillAndSubmit(f: BasicForm, n: string, e: string, m: string)
    ensures var filled := BasicStep(BasicStep(BasicStep(f, EditName(n)), EditEmail(e)), EditMessage(m));
            BasicStep(filled, SubmitBasic) == (if n != "" && e != "" && m != "" then BlankBasicForm else BasicForm(n, e, m))
  {
  }
}
