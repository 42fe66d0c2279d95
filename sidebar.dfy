/**
 * The catalogue editor's side menu (src/Components/UserDisplay/Sidebar.js):
 * which panel is open, and the layout that narrows the menu while the
 * slider editor is open.
 */
module SidebarPanel {

  datatype Panel = CategoriesPanel | SliderPanel | OffersPanel | Placeholder

  /** The right-hand panel for a menu entry; anything unknown, the initial "" included, shows the placeholder. */
  function RightContent(category: string): (p: Panel)
    ensures p == CategoriesPanel <==> category == "categories"
    ensures p == SliderPanel <==> category == "slider"
    ensures p == OffersPanel <==> category == "offers"
    ensures p == Placeholder <==> category != "categories" && category != "slider" && category != "offers"
  {
    if category == "categories" then CategoriesPanel
    else if category == "slider" then SliderPanel
    else if category == "offers" then OffersPanel
    else Placeholder
  }

  datatype Width = OneSixth | OneQuarter
  datatype Margin = Percent1666 | Percent25

  /** The menu's width class, narrow while the slider is active. */
  function SidebarWidth(isSliderActive: bool): Width
  {
    if isSliderActive then OneSixth else OneQuarter
  }

  /** The content's left margin, matching the menu's width. */
  function ContentMargin(isSliderActive: bool): Margin
  {
    if isSliderActive then Percent1666 else Percent25
  }

  /** Both classes come from the same flag, so the content always starts where the menu ends. */
  lemma LayoutAgrees(isSliderActive: bool)
    ensures SidebarWidth(isSliderActive) == OneSixth <==> ContentMargin(isSliderActive) == Percent1666
    ensures SidebarWidth(isSliderActive) == OneQuarter <==> ContentMargin(isSliderActive) == Percent25
  {
  }

  class Sidebar {
    var activeCategory: string
    var isSliderActive: bool

    /** The slider flag mirrors the open entry. */
    ghost predicate Valid()
      reads this
    {
      isSliderActive <==> activeCategory == "slider"
    }

    constructor ()
      ensures Valid()
      ensures activeCategory == "" && !isSliderActive
    {
      activeCategory := "";
      isSliderActive := false;
    }

    /** A menu entry: both fields are set from the entry alone, so clicking it again changes nothing. */
    method HandleCategoryClick(category: string)
      modifies this
      ensures Valid()
      ensures activeCategory == category && isSliderActive == (category == "slider")
    {
      activeCategory := category;
      isSliderActive := category == "slider";
    }

    /** The menu is narrow exactly while the slider panel is shown. */
    function Width(): (w: Width)
      reads this
      requires Valid()
      ensures w == OneSixth <==> RightContent(activeCategory) == SliderPanel
    {
      SidebarWidth(isSliderActive)
    }
  }

  /**
   * Clicking the same entry twice, from any valid state, leaves the state
   * the first click left: `once` and `onceFlag` are the fields after it.
   */
  method ClickTwice(s: Sidebar, category: string) returns (once: string, onceFlag: bool)
    requires s.Valid()
    modifies s
    ensures s.Valid()
    ensures s.activeCategory == once && s.isSliderActive == onceFlag
    ensures once == category && onceFlag == (category == "slider")
  {
    s.HandleCategoryClick(category);
    once, onceFlag := s.activeCategory, s.isSliderActive;
    s.HandleCategoryClick(category);
  }
}
