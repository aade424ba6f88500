/** The markdown toolbar above the post and comment editors: three menus
    (headings, code languages, colors) of which at most one is open, and the
    prefix and suffix each button asks the editor to wrap the selection
    in. */
module MarkdownToolbar {
  import opened Wrappers
  import opened Text
  import opened TableOfContents

  /** What a button asks the editor to insert around the selection. */
  datatype Wrap = Wrap(prefix: string, suffix: string)

  /** The fixed buttons of the toolbar. */
  datatype Tool = Bold | Italic | Underline | Highlight | Link | Image | Quote | Note | ListItem | Separator

  /** The inline tools close what they open; the block tools only start a
      line construct and leave the suffix empty. */
  function ToolWrap(t: Tool): (w: Wrap)
    ensures t in {Bold, Italic, Underline, Highlight, Link, Image} <==> w.suffix != ""
    ensures t in {Bold, Italic} ==> w.prefix == w.suffix
    ensures w.prefix != ""
  {
    match t
    case Bold => Wrap("**", "**")
    case Italic => Wrap("_", "_")
    case Underline => Wrap("<u>", "</u>")
    case Highlight => Wrap("<mark>", "</mark>")
    case Link => Wrap("[", "](url)")
    case Image => Wrap("![alt text](", ")")
    case Quote => Wrap("> ", "")
    case Note => Wrap("> [!NOTE]\n> ", "")
    case ListItem => Wrap("- ", "")
    case Separator => Wrap("\n---\n", "")
  }

  /** '#' repeated `n` times. */
  function Hashes(n: nat): (r: string)
    ensures |r| == n && forall i :: 0 <= i < n ==> r[i] == '#'
  {
    if n == 0 then "" else "#" + Hashes(n - 1)
  }

  /** The heading menu's values, for levels 1 to 3. */
  const HEADING_VALUES: seq<string> := ["# ", "## ", "### "]

  /** The heading of level `level` is that many '#' and a space. */
  lemma HeadingValues(level: nat)
    requires 1 <= level <= 3
    ensures HEADING_VALUES[level - 1] == Hashes(level) + " "
  {
  }

  /** The code-block fence for language `langId`. */
  function LanguageWrap(langId: string): Wrap
  {
    Wrap("\n```" + langId + "\n", "\n```\n")
  }

  const LANGUAGE_IDS: seq<string> := ["java", "javascript", "typescript", "python", "go", "yaml", "bash", "sql", "json"]

  /** The colored span for the CSS color `color`. */
  function ColorWrap(color: string): Wrap
  {
    Wrap("<span style=\"color: " + color + "\">", "</span>")
  }

  const COLOR_VALUES: seq<string> := ["#ef4444", "#EA580C", "#FBBF24", "#22c55e", "#a855f7"]

  /** A heading from the menu, written at the start of the text before a
      title on one line, is a heading of that level for the table of
      contents, whose text is the title. */
  lemma HeadingInsertIsHeading(level: nat, title: string)
    requires 1 <= level <= 3
    requires title != [] && !IsSpace(title[0])
    requires forall i :: 0 <= i < |title| ==> !IsLineTerminator(title[i])
    ensures var s := HEADING_VALUES[level - 1] + title;
            MatchAt(s, 0) == Some(HeadingMatch(0, level, level + 1, |s|))
  {
    HeadingValues(level);
    var s := HEADING_VALUES[level - 1] + title;
    assert s[level] == ' ' && s[level + 1] == title[0];
    HashRunExact(s, 0, level);
    assert IsSpace(' ');
    assert SpaceRun(s, level + 1) == 0;
    assert SpaceRun(s, level) == 1;
    assert DotAt(s, level, 1);
    forall i | level + 1 <= i < |s| ensures !IsLineTerminator(s[i]) {
      assert s[i] == title[i - level - 1];
    }
    LineEndAtEnd(s, level + 1);
  }

  lemma {:induction false} HashRunExact(s: string, p: nat, n: nat)
    requires p + n < |s| && s[p + n] != '#'
    requires forall i :: p <= i < p + n ==> s[i] == '#'
    ensures HashRun(s, p) == n
    decreases n
  {
    if n > 0 {
      HashRunExact(s, p + 1, n - 1);
    }
  }

  lemma {:induction false} LineEndAtEnd(s: string, p: nat)
    requires p <= |s|
    requires forall i :: p <= i < |s| ==> !IsLineTerminator(s[i])
    ensures LineEnd(s, p) == |s|
    decreases |s| - p
  {
    if p < |s| {
      LineEndAtEnd(s, p + 1);
    }
  }

  /** The menus that can be open. */
  datatype Menu = HeadingMenu | LanguageMenu | ColorMenu

  class Toolbar {
    var showLanguageMenu: bool
    var showColorMenu: bool
    var showHeadingMenu: bool

    predicate AtMostOneOpen()
      reads this
    {
      (if showLanguageMenu then 1 else 0) + (if showColorMenu then 1 else 0) + (if showHeadingMenu then 1 else 0) <= 1
    }

    /** Whether `m` is open. */
    function IsOpen(m: Menu): bool
      reads this
    {
      match m
      case HeadingMenu => showHeadingMenu
      case LanguageMenu => showLanguageMenu
      case ColorMenu => showColorMenu
    }

    constructor ()
      ensures !showLanguageMenu && !showColorMenu && !showHeadingMenu
      ensures AtMostOneOpen()
    {
      showLanguageMenu := false;
      showColorMenu := false;
      showHeadingMenu := false;
    }

    /** A menu button: its menu flips, the other two close, whatever was
        open before. */
    method ToggleMenu(m: Menu)
      modifies this
      ensures IsOpen(m) == !old(IsOpen(m))
      ensures forall other :: other != m ==> !IsOpen(other)
      ensures AtMostOneOpen()
    {
      match m {
        case LanguageMenu =>
          showLanguageMenu := !showLanguageMenu;
          showColorMenu := false;
          showHeadingMenu := false;
        case ColorMenu =>
          showColorMenu := !showColorMenu;
          showLanguageMenu := false;
          showHeadingMenu := false;
        case HeadingMenu =>
          showHeadingMenu := !showHeadingMenu;
          showLanguageMenu := false;
          showColorMenu := false;
      }
    }

    /** A click on the backdrop behind an open menu closes that menu. */
    method CloseMenu(m: Menu)
      modifies this
      ensures !IsOpen(m)
      ensures forall other :: other != m ==> IsOpen(other) == old(IsOpen(other))
      ensures old(AtMostOneOpen()) ==> AtMostOneOpen()
    {
      match m {
        case LanguageMenu => showLanguageMenu := false;
        case ColorMenu => showColorMenu := false;
        case HeadingMenu => showHeadingMenu := false;
      }
    }

    /** A language from the menu. The three menus' item buttons, unlike the
        toolbar's other buttons, carry no `type`; inside a form they also
        submit it (`CommentForm.CommentFormState.MenuPick`). */
    method SelectLanguage(langId: string) returns (w: Wrap)
      modifies this
      ensures w == LanguageWrap(langId)
      ensures !showLanguageMenu && showColorMenu == old(showColorMenu) && showHeadingMenu == old(showHeadingMenu)
    {
      w := LanguageWrap(langId);
      showLanguageMenu := false;
    }

    /** A color from the menu; like the language items, a submit button. */
    method SelectColor(color: string) returns (w: Wrap)
      modifies this
      ensures w == ColorWrap(color)
      ensures !showColorMenu && showLanguageMenu == old(showLanguageMenu) && showHeadingMenu == old(showHeadingMenu)
    {
      w := ColorWrap(color);
      showColorMenu := false;
    }

    /** A heading from the menu: its value is the prefix, nothing follows;
        like the language items, a submit button. */
    method SelectHeading(level: nat) returns (w: Wrap)
      requires 1 <= level <= 3
      modifies this
      ensures w == Wrap(Hashes(level) + " ", "")
      ensures !showHeadingMenu && showLanguageMenu == old(showLanguageMenu) && showColorMenu == old(showColorMenu)
    {
      HeadingValues(level);
      w := Wrap(HEADING_VALUES[level - 1], "");
      showHeadingMenu := false;
    }
  }
}
