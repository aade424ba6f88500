/** The home page: the query sent for the post list, the page resets of the
    search and category controls, the category menu and the featured post.
    A fetch is two events: the request, built from the state when it is
    issued, and its answer, which either carries a page or is a failure. */
module Home {
  import opened Wrappers
  import opened Text
  import opened FrontendTypes
  import CategoryDropdown

  /** Posts per page. */
  const PAGE_SIZE: int := 10
  /** The category button's text when none is chosen. */
  const CATEGORY_PLACEHOLDER: string := "Kategori"

  /** The query of the post-list request. */
  datatype PostParams = PostParams(tag: Option<string>, search: Option<string>, category: Option<string>,
                                   page: int, size: int)

  /** The parameters `fetchPosts` builds: a search starting with '#' asks for
      that tag, any other non-empty search is a text search. */
  function PostQueryParams(searchQuery: string, selectedCategory: string, currentPage: int): PostParams
  {
    var tag := if |searchQuery| > 0 && searchQuery[0] == '#' then Some(Substring(searchQuery, 1, |searchQuery|)) else None;
    var search := if tag.None? && searchQuery != "" then Some(searchQuery) else None;
    PostParams(tag, search, if selectedCategory != "" then Some(selectedCategory) else None, currentPage, PAGE_SIZE)
  }

  /** A '#' search yields only a tag (the text after the '#'); any other
      non-empty search yields only the text search; an empty one neither.
      The category is sent exactly when one is chosen; page and size always. */
  lemma QueryParamsRules(searchQuery: string, selectedCategory: string, currentPage: int)
    ensures |searchQuery| > 0 && searchQuery[0] == '#' ==>
              PostQueryParams(searchQuery, selectedCategory, currentPage).tag == Some(searchQuery[1..]) &&
              PostQueryParams(searchQuery, selectedCategory, currentPage).search == None
    ensures searchQuery != "" && searchQuery[0] != '#' ==>
              PostQueryParams(searchQuery, selectedCategory, currentPage).tag == None &&
              PostQueryParams(searchQuery, selectedCategory, currentPage).search == Some(searchQuery)
    ensures searchQuery == "" ==>
              PostQueryParams(searchQuery, selectedCategory, currentPage).tag == None &&
              PostQueryParams(searchQuery, selectedCategory, currentPage).search == None
    ensures PostQueryParams(searchQuery, selectedCategory, currentPage).category.Some? <==> selectedCategory != ""
    ensures PostQueryParams(searchQuery, selectedCategory, currentPage).category.Some? ==>
              PostQueryParams(searchQuery, selectedCategory, currentPage).category.value == selectedCategory
    ensures PostQueryParams(searchQuery, selectedCategory, currentPage).page == currentPage
    ensures PostQueryParams(searchQuery, selectedCategory, currentPage).size == 10
  {
    if |searchQuery| > 0 {
      assert searchQuery[1..|searchQuery|] == searchQuery[1..];
    }
  }

  /** Tag and text search are never sent together. */
  lemma TagAndSearchExclusive(searchQuery: string, selectedCategory: string, currentPage: int)
    ensures !(PostQueryParams(searchQuery, selectedCategory, currentPage).tag.Some? &&
              PostQueryParams(searchQuery, selectedCategory, currentPage).search.Some?)
  {
  }

  function CategoryName(c: Category): string
  {
    c.name
  }

  /** The first category with that slug. */
  function FindBySlug(categories: seq<Category>, slug: string): (r: Option<Category>)
    ensures r.Some? ==> r.value in categories && r.value.slug == slug
    ensures r.None? ==> forall c :: c in categories ==> c.slug != slug
  {
    if categories == [] then None
    else if categories[0].slug == slug then Some(categories[0])
    else FindBySlug(categories[1..], slug)
  }

  /** JavaScript's `a || b` on strings: `b` when `a` is empty. */
  function OrElse(a: string, b: string): string
  {
    if a != "" then a else b
  }

  /** The category button's text. */
  function CategoryButtonLabel(categories: seq<Category>, selectedCategory: string): (r: string)
    ensures selectedCategory == "" ==> r == CATEGORY_PLACEHOLDER
    ensures r == CATEGORY_PLACEHOLDER ||
            exists c :: c in categories && c.slug == selectedCategory && c.name == r
  {
    if selectedCategory == "" then CATEGORY_PLACEHOLDER
    else
      var found := FindBySlug(categories, selectedCategory);
      OrElse(if found.Some? then found.value.name else "", CATEGORY_PLACEHOLDER)
  }

  /** The text of the chip above the list: the category's name, else its
      slug. */
  function FilterChipLabel(categories: seq<Category>, selectedCategory: string): (r: string)
    ensures r == selectedCategory || exists c :: c in categories && c.slug == selectedCategory && c.name == r
  {
    var found := FindBySlug(categories, selectedCategory);
    OrElse(if found.Some? then found.value.name else "", selectedCategory)
  }

  /** A card is featured when it is the first card of the first page. */
  function Featured(currentPage: int, index: int): bool
  {
    currentPage == 0 && index == 0
  }

  /** At most one card is featured, and none beyond the first page. */
  lemma AtMostOneFeatured(currentPage: int, i: int, j: int)
    ensures Featured(currentPage, i) && Featured(currentPage, j) ==> i == j
    ensures currentPage != 0 ==> !Featured(currentPage, i)
  {
  }

  class HomePage {
    var posts: seq<Post>
    var categories: seq<Category>
    var loading: bool
    var currentPage: int
    var totalPages: int
    var searchQuery: string
    var selectedCategory: string
    var isCategoryOpen: bool
    var categorySearchQuery: string

    constructor ()
      ensures posts == [] && categories == [] && loading && currentPage == 0 && totalPages == 0
      ensures searchQuery == "" && selectedCategory == "" && !isCategoryOpen && categorySearchQuery == ""
    {
      posts := [];
      categories := [];
      loading := true;
      currentPage := 0;
      totalPages := 0;
      searchQuery := "";
      selectedCategory := "";
      isCategoryOpen := false;
      categorySearchQuery := "";
    }

    /** The request `fetchPosts` issues; it marks the page as loading. */
    method FetchPosts() returns (params: PostParams)
      modifies this
      ensures params == PostQueryParams(searchQuery, selectedCategory, currentPage)
      ensures loading
      ensures posts == old(posts) && totalPages == old(totalPages) && currentPage == old(currentPage)
      ensures searchQuery == old(searchQuery) && selectedCategory == old(selectedCategory)
    {
      loading := true;
      params := PostQueryParams(searchQuery, selectedCategory, currentPage);
    }

    /** The answer to the request: a page replaces the posts and the page
        count; a failure keeps both. Loading ends either way. */
    method PostsAnswered(answer: Option<PostPage>)
      modifies this
      ensures !loading
      ensures answer.Some? ==> posts == answer.value.content && totalPages == answer.value.totalPages
      ensures answer.None? ==> posts == old(posts) && totalPages == old(totalPages)
      ensures currentPage == old(currentPage) && searchQuery == old(searchQuery)
      ensures selectedCategory == old(selectedCategory) && categories == old(categories)
    {
      if answer.Some? {
        posts := answer.value.content;
        totalPages := answer.value.totalPages;
      }
      loading := false;
    }

    /** The answer to the category request; a failure keeps the list. */
    method CategoriesAnswered(answer: Option<seq<Category>>)
      modifies this
      ensures categories == if answer.Some? then answer.value else old(categories)
      ensures posts == old(posts) && currentPage == old(currentPage) && loading == old(loading)
    {
      if answer.Some? {
        categories := answer.value;
      }
    }

    /** Typing in the search box: the query changes and the page resets. */
    method HandleSearchChange(value: string)
      modifies this
      ensures searchQuery == value && currentPage == 0
      ensures selectedCategory == old(selectedCategory) && posts == old(posts)
    {
      searchQuery := value;
      currentPage := 0;
    }

    /** Choosing a category from the menu: the filter changes, the menu
        closes, its search clears and the page resets. */
    method HandleCategorySelect(slug: string)
      modifies this
      ensures selectedCategory == slug && !isCategoryOpen && categorySearchQuery == "" && currentPage == 0
      ensures searchQuery == old(searchQuery) && posts == old(posts)
    {
      selectedCategory := slug;
      isCategoryOpen := false;
      categorySearchQuery := "";
      currentPage := 0;
    }

    /** The "Temizle" button clears the category but keeps the page. */
    method ClearCategory()
      modifies this
      ensures selectedCategory == "" && currentPage == old(currentPage)
      ensures searchQuery == old(searchQuery) && isCategoryOpen == old(isCategoryOpen)
    {
      selectedCategory := "";
    }

    /** The pagination bar's callback. */
    method PageChange(page: int)
      modifies this
      ensures currentPage == page && searchQuery == old(searchQuery) && selectedCategory == old(selectedCategory)
    {
      currentPage := page;
    }

    /** The category button: opens a closed menu; closing clears its
        search. */
    method ToggleCategoryMenu()
      modifies this
      ensures isCategoryOpen == !old(isCategoryOpen)
      ensures categorySearchQuery == if old(isCategoryOpen) then "" else old(categorySearchQuery)
      ensures currentPage == old(currentPage) && selectedCategory == old(selectedCategory)
    {
      var wasOpen := isCategoryOpen;
      isCategoryOpen := !isCategoryOpen;
      if wasOpen {
        categorySearchQuery := "";
      }
    }

    /** A mouse-down outside the menu closes it and clears its search. */
    method ClickOutside()
      modifies this
      ensures !isCategoryOpen && categorySearchQuery == ""
      ensures currentPage == old(currentPage) && selectedCategory == old(selectedCategory)
    {
      isCategoryOpen := false;
      categorySearchQuery := "";
    }

    method SetCategorySearch(q: string)
      modifies this
      ensures categorySearchQuery == q && isCategoryOpen == old(isCategoryOpen)
    {
      categorySearchQuery := q;
    }

    /** The categories listed in the menu. */
    function FilteredCategories(): seq<Category>
      reads this
    {
      CategoryDropdown.FilterByName(categories, CategoryName, categorySearchQuery)
    }
  }

  /** The menu lists, in order, the categories whose name contains the
      query regardless of case; an empty query lists them all. */
  lemma FilteredCategoriesRule(page: HomePage)
    ensures forall c :: c in page.FilteredCategories() <==>
              c in page.categories && Contains(Lower(c.name), Lower(page.categorySearchQuery))
    ensures page.categorySearchQuery == "" ==> page.FilteredCategories() == page.categories
  {
    if page.categorySearchQuery == "" {
      CategoryDropdown.EmptyQueryKeepsAll(page.categories, CategoryName);
    }
  }
}
