/**
 * The navigation state of the multi-page application: the hover and active flags of
 * each sidebar menu item, the sidebar's expanded flag, and the application's current
 * view. Widgets and animations are abstracted away: where the source starts an
 * animation, a method here returns the animation's target (a colour or a width).
 */
module Navigation {
  import opened Wrappers
  import opened PyText

  /** The labels create_menu_items gives the four menu items, in order. */
  const MenuTexts: seq<string> := ["Home", "Dashboard", "Settings", "About"]

  /** The page each of those items navigates to when clicked. */
  const MenuPages: seq<string> := ["home", "dashboard", "settings", "about"]

  /** The first index whose label, lower-cased, equals `page`: the item navigate_to activates. */
  predicate IsFirstMatch(texts: seq<string>, page: string, k: int) {
    0 <= k < |texts| && Lower(texts[k]) == page
    && forall j :: 0 <= j < k ==> Lower(texts[j]) != page
  }

  /** The index of the first label matching `page`, or None when no label matches. */
  function Selected(texts: seq<string>, page: string): (r: Option<nat>)
    ensures r.Some? ==> IsFirstMatch(texts, page, r.value)
    ensures r.None? ==> forall j :: 0 <= j < |texts| ==> Lower(texts[j]) != page
  {
    if texts == [] then None
    else if Lower(texts[0]) == page then Some(0)
    else match Selected(texts[1..], page)
      case None => None
      case Some(k) => Some(k + 1)
  }

  /** There is one first match at most: navigating activates at most one item. */
  lemma FirstMatchUnique(texts: seq<string>, page: string, j: int, k: int)
    requires IsFirstMatch(texts, page, j) && IsFirstMatch(texts, page, k)
    ensures j == k
  {
  }

  /** Each menu item's own page selects that item and no other. */
  lemma MenuPagesSelectTheirItem(k: nat)
    requires k < |MenuPages|
    ensures Selected(MenuTexts, MenuPages[k]) == Some(k)
  {
    forall j | 0 <= j < |MenuTexts| ensures Lower(MenuTexts[j]) == MenuPages[j] {
      var t, p := MenuTexts[j], MenuPages[j];
      assert |Lower(t)| == |p|;
      forall i | 0 <= i < |p| ensures Lower(t)[i] == p[i] {
        assert LowerChar(t[i]) == p[i];
      }
    }
    assert IsFirstMatch(MenuTexts, MenuPages[k], k);
  }

  class MenuItem {
    const text: string
    var isActive: bool
    var isHovered: bool
    const currentColor: string := "#2c3e50"
    const hoverColor: string := "#34495e"
    const activeColor: string := "#3498db"

    constructor (text: string)
      ensures this.text == text && !isActive && !isHovered
    {
      this.text := text;
      isActive := false;
      isHovered := false;
    }

    /** on_enter: an inactive item becomes hovered and fades to the hover colour. */
    method OnEnter() returns (fadeTo: Option<string>)
      modifies this`isHovered
      ensures isHovered == (old(isHovered) || !isActive)
      ensures fadeTo == (if isActive then None else Some(hoverColor))
    {
      fadeTo := None;
      if !isActive {
        isHovered := true;
        fadeTo := Some(hoverColor);
      }
    }

    /** on_leave: an inactive item stops being hovered and always fades back to its base colour. */
    method OnLeave() returns (fadeTo: Option<string>)
      modifies this`isHovered
      ensures isHovered == (old(isHovered) && isActive)
      ensures fadeTo == (if isActive then None else Some(currentColor))
    {
      fadeTo := None;
      if !isActive {
        isHovered := false;
        fadeTo := Some(if !isActive then currentColor else activeColor);
      }
    }

    /** set_active: records the flag and fades to the active or the base colour; hovering is untouched. */
    method SetActive(active: bool) returns (fadeTo: string)
      modifies this`isActive
      ensures isActive == active
      ensures fadeTo == (if active then activeColor else currentColor)
    {
      isActive := active;
      fadeTo := if active then activeColor else currentColor;
    }
  }

  class Sidebar {
    var items: seq<MenuItem>
    var isExpanded: bool
    var currentWidth: int
    const expandedWidth: int := 220
    const collapsedWidth: int := 60
    /** Whether an on_navigate callback was given. */
    const notifies: bool

    ghost function Texts(): seq<string>
      reads this
    {
      var its := items;
      seq(|its|, k requires 0 <= k < |its| => its[k].text)
    }

    /** The four menu items, as distinct objects, labelled as create_menu_items labels them. */
    ghost predicate Valid()
      reads this
    {
      Texts() == MenuTexts
      && forall j, k :: 0 <= j < k < |items| ==> items[j] != items[k]
    }

    /** A fresh sidebar: expanded at 220, the four items, only Home active, nothing hovered. */
    constructor (notifies: bool)
      ensures Valid() && this.notifies == notifies
      ensures isExpanded && currentWidth == 220
      ensures forall k :: 0 <= k < |items| ==> fresh(items[k]) && !items[k].isHovered
      ensures forall k :: 0 <= k < |items| ==> items[k].isActive == (k == 0)
    {
      this.notifies := notifies;
      isExpanded := true;
      currentWidth := 220;
      items := [];
      new;
      CreateMenuItems();
    }

    /** create_menu_items: one item per menu entry, in order, and the first one set active. */
    method CreateMenuItems()
      requires items == []
      modifies this`items
      ensures Valid()
      ensures forall k :: 0 <= k < |items| ==> fresh(items[k]) && !items[k].isHovered
      ensures forall k :: 0 <= k < |items| ==> items[k].isActive == (k == 0)
    {
      for i := 0 to |MenuTexts|
        invariant |items| == i
        invariant forall k :: 0 <= k < i ==> items[k].text == MenuTexts[k]
        invariant forall k :: 0 <= k < i ==> fresh(items[k]) && !items[k].isActive && !items[k].isHovered
        invariant forall j, k :: 0 <= j < k < i ==> items[j] != items[k]
      {
        var item := new MenuItem(MenuTexts[i]);
        items := items + [item];
      }
      assert Texts() == MenuTexts;
      var _ := items[0].SetActive(true);
    }

    /**
     * navigate_to: every item is set inactive, then the first item whose lower-cased label
     * equals `page` is set active; `page` is forwarded to on_navigate whatever it is.
     */
    method NavigateTo(page: string) returns (forwarded: Option<string>)
      requires Valid()
      modifies items
      ensures Valid()
      ensures forall k :: 0 <= k < |items| ==> items[k].isActive == (Selected(Texts(), page) == Some(k))
      ensures forall k :: 0 <= k < |items| ==> items[k].isHovered == old(items[k].isHovered)
      ensures forwarded == (if notifies then Some(page) else None)
    {
      for i := 0 to |items|
        invariant forall k :: 0 <= k < i ==> !items[k].isActive
        invariant forall k :: 0 <= k < |items| ==> items[k].isHovered == old(items[k].isHovered)
      {
        var _ := items[i].SetActive(false);
      }
      var i := 0;
      while i < |items|
        invariant 0 <= i <= |items|
        invariant forall k :: 0 <= k < i ==> Lower(items[k].text) != page
        invariant forall k :: 0 <= k < |items| ==> !items[k].isActive
        invariant forall k :: 0 <= k < |items| ==> items[k].isHovered == old(items[k].isHovered)
      {
        if Lower(items[i].text) == page {
          var _ := items[i].SetActive(true);
          assert IsFirstMatch(Texts(), page, i);
          break;
        }
        i := i + 1;
      }
      forwarded := if notifies then Some(page) else None;
    }

    /** Clicking menu item k runs its command, navigate_to(page of item k). */
    method Click(k: nat) returns (forwarded: Option<string>)
      requires Valid() && k < |items|
      modifies items
      ensures Valid()
      ensures forall j :: 0 <= j < |items| ==> items[j].isActive == (j == k)
      ensures forall j :: 0 <= j < |items| ==> items[j].isHovered == old(items[j].isHovered)
      ensures forwarded == (if notifies then Some(MenuPages[k]) else None)
    {
      MenuPagesSelectTheirItem(k);
      forwarded := NavigateTo(MenuPages[k]);
    }

    /** toggle: flips the expanded flag and aims the width animation at 220 or 60. */
    method Toggle() returns (targetWidth: int)
      modifies this`isExpanded
      ensures isExpanded == !old(isExpanded)
      ensures targetWidth == (if isExpanded then expandedWidth else collapsedWidth)
    {
      isExpanded := !isExpanded;
      targetWidth := if isExpanded then expandedWidth else collapsedWidth;
    }
  }

  /** Toggling twice restores the expanded flag and aims the animations at both widths in turn. */
  method ToggleTwice(s: Sidebar) returns (first: int, second: int)
    modifies s`isExpanded
    ensures s.isExpanded == old(s.isExpanded)
    ensures {first, second} == {220, 60} && second == (if s.isExpanded then 220 else 60)
  {
    first := s.Toggle();
    second := s.Toggle();
  }

  /** The four views of the application. */
  datatype Page = Home | Dashboard | Settings | About

  /** The visible effect of a navigation: a view fading out, or a view being shown. */
  datatype ViewChange = Hide(view: Page) | Show(view: Page)

  /** The application's `views` dictionary. */
  const Views: map<string, Page> :=
    map["home" := Home, "dashboard" := Dashboard, "settings" := Settings, "about" := About]

  datatype Transition = Transition(next: Option<Page>, changes: seq<ViewChange>)

  /** navigate_to_page on the current view: the view that is current afterwards and what is hidden and shown. */
  function Navigate(current: Option<Page>, pageName: string): (t: Transition)
    ensures pageName !in Views ==> t == Transition(current, [])
    ensures pageName in Views ==> t.next == Some(Views[pageName])
    ensures t.changes == [] <==> t.next == current
    ensures t.changes != [] ==> t.changes[|t.changes| - 1] == Show(t.next.value)
    ensures t.changes != [] && current.Some? ==> t.changes == [Hide(current.value), Show(t.next.value)]
    ensures t.changes != [] && current.None? ==> t.changes == [Show(t.next.value)]
  {
    if pageName !in Views then Transition(current, [])
    else
      var newView := Views[pageName];
      if current == Some(newView) then Transition(current, [])
      else if current.Some? then Transition(Some(newView), [Hide(current.value), Show(newView)])
      else Transition(Some(newView), [Show(newView)])
  }

  /** Navigating to the page just navigated to changes nothing. */
  lemma NavigateIdempotent(current: Option<Page>, pageName: string)
    ensures var t := Navigate(current, pageName);
      Navigate(t.next, pageName) == Transition(t.next, [])
  {
  }

  class App {
    const sidebar: Sidebar
    var currentView: Option<Page>

    /** The menu and the view agree: exactly the item whose page names the current view is active. */
    ghost predicate Valid()
      reads this, sidebar, sidebar.items
    {
      sidebar.Valid() && sidebar.notifies && currentView.Some?
      && forall k :: 0 <= k < |sidebar.items| ==>
           sidebar.items[k].isActive == (Views[MenuPages[k]] == currentView.value)
    }

    /** The application starts on the home view with the Home item active. */
    constructor ()
      ensures Valid() && currentView == Some(Home)
    {
      sidebar := new Sidebar(true);
      currentView := None;
      new;
      var _ := NavigateToPage("home");
    }

    /**
     * navigate_to_page: an unknown page or the current view changes nothing; otherwise the
     * previous view, if any, is hidden before the new one is shown, and the new one is current.
     */
    method NavigateToPage(pageName: string) returns (changes: seq<ViewChange>)
      modifies this`currentView
      ensures Transition(currentView, changes) == Navigate(old(currentView), pageName)
    {
      changes := [];
      if pageName !in Views {
        return;
      }
      var newView := Views[pageName];
      if currentView == Some(newView) {
        return;
      }
      if currentView.Some? {
        changes := [Hide(currentView.value), Show(newView)];
      } else {
        changes := [Show(newView)];
      }
      currentView := Some(newView);
    }

    /**
     * A click on menu item k: the sidebar activates it and forwards its page to
     * navigate_to_page, whose hides and shows are those of Navigate. The menu and the
     * view need not agree beforehand (a direct navigate_to_page may have moved the view);
     * they agree afterwards.
     */
    method SelectMenuItem(k: nat) returns (changes: seq<ViewChange>)
      requires sidebar.Valid() && sidebar.notifies && k < |sidebar.items|
      modifies this`currentView, sidebar.items
      ensures Valid()
      ensures currentView == Some(Views[MenuPages[k]])
      ensures changes == Navigate(old(currentView), MenuPages[k]).changes
      ensures forall j :: 0 <= j < |sidebar.items| ==> sidebar.items[j].isActive == (j == k)
      ensures forall j :: 0 <= j < |sidebar.items| ==>
        sidebar.items[j].isHovered == old(sidebar.items[j].isHovered)
    {
      var forwarded := sidebar.Click(k);
      changes := NavigateToPage(forwarded.value);
    }
  }
}
