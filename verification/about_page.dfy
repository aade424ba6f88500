/** The about page: the description editor's tag buttons, the expanded
    experience card, and the admin modal, whose experience period is built
    from two month fields on submit and parsed back into them on edit.
    Month formatting and parsing (a date library) are parameters: `format`
    turns "yyyy-MM" into the displayed "MMM yyyy", `parse` goes back and
    yields '' for text it cannot read. */
module AboutPage {
  import opened Wrappers
  import opened Text

  datatype Tab = Education | Experience | References

  /* ---------- The description editor's tag buttons ---------- */

  /** What an empty selection is replaced by inside the tag. */
  const PLACEHOLDER: string := "text"

  /** The markup `insertTag` puts in place of the selection: a `b`, `mark`
      or `u` element, a span whose class is the part after `color:`, or
      nothing for any other tag. */
  function TagReplacement(tag: string, selected: string): string
  {
    if tag == "b" then "<b>" + selected + "</b>"
    else if tag == "mark" then "<mark>" + selected + "</mark>"
    else if tag == "u" then "<u>" + selected + "</u>"
    else if StartsWith(tag, "color:") then
      assert tag[5] == ':';
      "<span class=\"" + Split(tag, ':')[1] + "\">" + selected + "</span>"
    else ""
  }

  /** A colour button's tag gives a span with that class. */
  lemma ColorTag(color: string, selected: string)
    requires ':' !in color
    ensures TagReplacement("color:" + color, selected) == "<span class=\"" + color + "\">" + selected + "</span>"
  {
    var tag := "color:" + color;
    assert tag[..6] == "color:";
    assert tag == "color" + [':'] + color;
    SplitAfter("color", ':', color);
  }

  /** The new description and cursor. */
  datatype TagInsertion = TagInsertion(text: string, cursor: int)

  /** `insertTag`: the selection (or the placeholder when it is empty) is
      replaced by the tag's markup; the cursor goes after the markup. */
  function InsertTag(description: Option<string>, start: int, end: int, tag: string): TagInsertion
  {
    var text := if description.Some? then description.value else "";
    var sel := Substring(text, start, end);
    var replacement := TagReplacement(tag, if sel != "" then sel else PLACEHOLDER);
    TagInsertion(Substring(text, 0, start) + replacement + Substring(text, end, |text|), start + |replacement|)
  }

  /** The selection, or the placeholder for an empty one. */
  function Selected(text: string, start: int, end: int): string
    requires 0 <= start <= end <= |text|
  {
    if start < end then text[start..end] else PLACEHOLDER
  }

  /** For a selection inside the text: the selection is replaced by the
      markup of `Selected`, the text around it is kept, and the cursor lands
      after the markup. */
  lemma InsertTagRules(text: string, start: int, end: int, tag: string)
    requires 0 <= start <= end <= |text|
    ensures InsertTag(Some(text), start, end, tag).text ==
              text[..start] + TagReplacement(tag, Selected(text, start, end)) + text[end..]
    ensures InsertTag(Some(text), start, end, tag).cursor == start + |TagReplacement(tag, Selected(text, start, end))|
    ensures InsertTag(Some(text), start, end, tag).text[..start] == text[..start]
    ensures InsertTag(Some(text), start, end, tag).text[InsertTag(Some(text), start, end, tag).cursor..] == text[end..]
  {
    var rep := TagReplacement(tag, Selected(text, start, end));
    assert Substring(text, start, end) == text[start..end];
    assert Substring(text, 0, start) == text[..start];
    assert Substring(text, end, |text|) == text[end..];
    var t := text[..start] + rep + text[end..];
    assert t[..start] == text[..start];
    assert t[start + |rep|..] == text[end..];
  }

  /** The formatting buttons wrap the selection in their element; any tag
      other than those and the colours gives no markup, so the selection is
      deleted. */
  lemma TagReplacementRules(tag: string, selected: string)
    ensures tag == "b" || tag == "u" || tag == "mark" ==>
              TagReplacement(tag, selected) == "<" + tag + ">" + selected + "</" + tag + ">"
    ensures !(tag == "b" || tag == "u" || tag == "mark") && !StartsWith(tag, "color:") ==>
              TagReplacement(tag, selected) == ""
  {
  }

  /* ---------- The expanded card ---------- */

  /** `toggleExpand`: clicking the expanded card collapses it; clicking any
      other expands it alone. */
  function ToggleExpand(expanded: Option<string>, id: string): Option<string>
  {
    if expanded == Some(id) then None else Some(id)
  }

  /** Only the clicked card can be expanded afterwards; it is collapsed
      exactly when it was expanded; clicking it twice restores a state in
      which no other card was expanded. */
  lemma ToggleExpandRules(expanded: Option<string>, id: string)
    ensures ToggleExpand(expanded, id).None? <==> expanded == Some(id)
    ensures ToggleExpand(expanded, id).Some? ==> ToggleExpand(expanded, id).value == id
    ensures expanded.None? || expanded == Some(id) ==> ToggleExpand(ToggleExpand(expanded, id), id) == expanded
  {
  }

  /* ---------- The admin modal ---------- */

  /** The modal's fields that the page reads or writes; the rest of an item
      passes through unchanged. */
  datatype Draft = Draft(
    id: Option<string>,
    startDate: Option<string>,
    endDate: Option<string>,
    isCurrent: Option<bool>,
    period: Option<string>,
    leavingReason: Option<string>,
    technologies: Option<seq<string>>,
    description: Option<string>)

  const EMPTY_DRAFT: Draft := Draft(None, None, None, None, None, None, None, None)

  /** `handleAdd`: an empty item, with an empty technology list for an
      experience. */
  function NewDraft(tab: Tab): (r: Draft)
    ensures r.id.None? && r.period.None? && r.isCurrent.None?
    ensures r.technologies == (if tab == Experience then Some([]) else None)
  {
    if tab == Experience then EMPTY_DRAFT.(technologies := Some([])) else EMPTY_DRAFT
  }

  const PRESENT: string := "Günümüz"
  const ONGOING: string := "Devam Ediyor"
  const PERIOD_SEPARATOR: string := " - "

  /** `toDisplayFormat`: '' stays ''. */
  function DisplayFormat(format: string -> string, iso: Option<string>): string
  {
    if iso.None? || iso.value == "" then "" else format(iso.value)
  }

  /** The period built on submit: "start - Günümüz" for a current position,
      whose leaving reason is dropped; "start - end" otherwise. */
  function WithPeriod(format: string -> string, d: Draft): Draft
  {
    var start := DisplayFormat(format, d.startDate);
    if d.isCurrent == Some(true) then d.(period := Some(start + PERIOD_SEPARATOR + PRESENT), leavingReason := None)
    else d.(period := Some(start + PERIOD_SEPARATOR + DisplayFormat(format, d.endDate)))
  }

  /** The service call a submit makes. */
  datatype AboutCall =
    | AddEducation(item: Draft)
    | AddExperience(item: Draft)
    | UpdateExperience(id: string, item: Draft)
    | AddReference(item: Draft)
    | UpdateReference(id: string, item: Draft)

  /** `handleSubmit`: an item with an id is updated, except an education,
      which is added again because there is no education update; an item
      without an id is added. */
  function SubmitCall(format: string -> string, tab: Option<Tab>, modal: Draft): Option<AboutCall>
  {
    var d := if tab == Some(Experience) then WithPeriod(format, modal) else modal;
    if tab.None? then None
    else if d.id.Some? && d.id.value != "" then
      match tab.value
      case Education => Some(AddEducation(d))
      case Experience => Some(UpdateExperience(d.id.value, d))
      case References => Some(UpdateReference(d.id.value, d))
    else
      match tab.value
      case Education => Some(AddEducation(d))
      case Experience => Some(AddExperience(d))
      case References => Some(AddReference(d))
  }

  /** Which call a submit makes, and what the experience period becomes. */
  lemma SubmitRules(format: string -> string, tab: Tab, modal: Draft)
    ensures var hasId := modal.id.Some? && modal.id.value != "";
            var c := SubmitCall(format, Some(tab), modal);
            c.Some? &&
            (tab == Education ==> c.value == AddEducation(modal)) &&
            (tab == References ==> c.value == if hasId then UpdateReference(modal.id.value, modal) else AddReference(modal)) &&
            (tab == Experience ==> c.value == if hasId then UpdateExperience(modal.id.value, WithPeriod(format, modal))
                                              else AddExperience(WithPeriod(format, modal)))
    ensures modal.isCurrent == Some(true) ==>
              WithPeriod(format, modal).period == Some(DisplayFormat(format, modal.startDate) + " - " + "Günümüz") &&
              WithPeriod(format, modal).leavingReason.None?
    ensures modal.isCurrent != Some(true) ==>
              WithPeriod(format, modal).period == Some(DisplayFormat(format, modal.startDate) + " - " + DisplayFormat(format, modal.endDate)) &&
              WithPeriod(format, modal).leavingReason == modal.leavingReason
  {
  }

  /** `parseToIso`: '' for no text and for the two "still working" words,
      else the parsed month. */
  function ParseToIso(parse: string -> string, s: Option<string>): string
  {
    if s.None? || s.value == "" || s.value == PRESENT || s.value == ONGOING then "" else parse(s.value)
  }

  /** `handleEdit`: an experience's period is split at " - " into the two
      month fields; an end that reads "Günümüz" or "Devam Ediyor" leaves the
      end empty and, only when the item has no `isCurrent`, marks it
      current. */
  function EditDraft(parse: string -> string, tab: Tab, item: Draft): Draft
  {
    if tab == Experience && item.period.Some? && item.period.value != "" then
      var parts := SplitOn(item.period.value, PERIOD_SEPARATOR);
      var end := if |parts| > 1 then Some(parts[1]) else None;
      var working := end == Some(PRESENT) || end == Some(ONGOING);
      item.(startDate := Some(ParseToIso(parse, Some(parts[0]))),
            endDate := Some(if working then "" else ParseToIso(parse, end)),
            isCurrent := if item.isCurrent.None? then Some(working) else item.isCurrent)
    else item
  }

  /** A period whose end is one of the two words gives an empty end and, for
      an item without `isCurrent`, a current position. */
  lemma EditStillWorking(parse: string -> string, item: Draft, start: string, word: string)
    requires word == PRESENT || word == ONGOING
    requires '-' !in start && item.period == Some(start + " - " + word)
    ensures EditDraft(parse, Experience, item).endDate == Some("")
    ensures EditDraft(parse, Experience, item).isCurrent == (if item.isCurrent.None? then Some(true) else item.isCurrent)
    ensures EditDraft(parse, Experience, item).startDate == Some(ParseToIso(parse, Some(start)))
  {
    SplitOnPeriod(start, word);
    WordsAreOnePiece();
    var parts := SplitOn(item.period.value, PERIOD_SEPARATOR);
    assert parts == [start, word];
    assert item.period.value != "" by {
      assert |item.period.value| >= 3;
    }
  }

  /** Neither word holds the separator. */
  lemma WordsAreOnePiece()
    ensures SplitOn(PRESENT, PERIOD_SEPARATOR) == [PRESENT]
    ensures SplitOn(ONGOING, PERIOD_SEPARATOR) == [ONGOING]
  {
    assert '-' !in PRESENT && '-' !in ONGOING;
    NoDashOneSplit(PRESENT);
    NoDashOneSplit(ONGOING);
  }

  /** No " - " can start inside a text without '-'. */
  lemma NoDashOneSplit(s: string)
    requires '-' !in s
    ensures SplitOn(s, PERIOD_SEPARATOR) == [s]
  {
    var i := IndexOf(s, PERIOD_SEPARATOR);
    NoSeparatorAt(s, "", i);
    assert s + "" == s;
  }

  /** " - " does not start at `j` when the character after `j` is not '-':
      inside `a`, or at the last character of `a` followed by `rest`
      starting with a space. */
  lemma NoSeparatorAt(a: string, rest: string, j: int)
    requires '-' !in a && (rest == "" || rest[0] == ' ')
    requires j < |a|
    ensures !OccursAt(a + rest, PERIOD_SEPARATOR, j)
  {
    var s := a + rest;
    if 0 <= j && j + 3 <= |s| {
      assert s[j..j + 3][1] == s[j + 1];
      assert s[j + 1] != '-' by {
        if j + 1 < |a| {
          assert s[j + 1] == a[j + 1];
        } else {
          assert s[j + 1] == rest[0];
        }
      }
    }
  }

  /** Splitting at " - " after a text without '-' cuts right after it. */
  lemma SplitOnPeriod(a: string, b: string)
    requires '-' !in a
    ensures SplitOn(a + " - " + b, PERIOD_SEPARATOR) == [a] + SplitOn(b, PERIOD_SEPARATOR)
  {
    var s := a + " - " + b;
    assert s == a + (" - " + b);
    assert OccursAt(s, PERIOD_SEPARATOR, |a|) by {
      assert s[|a|..|a| + 3] == " - ";
    }
    forall j | 0 <= j < |a|
      ensures !OccursAt(s, PERIOD_SEPARATOR, j)
    {
      NoSeparatorAt(a, " - " + b, j);
    }
    var i := IndexOf(s, PERIOD_SEPARATOR);
    assert i == |a|;
    assert s[..i] == a;
    assert s[i + 3..] == b;
  }

  /** Editing a submitted experience gives back its months: a current one
      comes back with its start, an empty end and still current; an ended
      one with its start and end, as far as `parse` undoes `format`. */
  lemma EditAfterSubmit(format: string -> string, parse: string -> string, d: Draft)
    requires d.startDate.Some? && d.startDate.value != ""
    requires var s := format(d.startDate.value); s != "" && '-' !in s && s != PRESENT && s != ONGOING && parse(s) == d.startDate.value
    requires d.isCurrent != Some(true) ==>
               d.endDate.Some? && d.endDate.value != "" &&
               var e := format(d.endDate.value); e != "" && '-' !in e && e != PRESENT && e != ONGOING && parse(e) == d.endDate.value
    ensures EditDraft(parse, Experience, WithPeriod(format, d)).startDate == d.startDate
    ensures d.isCurrent == Some(true) ==>
              EditDraft(parse, Experience, WithPeriod(format, d)).endDate == Some("") &&
              EditDraft(parse, Experience, WithPeriod(format, d)).isCurrent == Some(true)
    ensures d.isCurrent != Some(true) ==>
              EditDraft(parse, Experience, WithPeriod(format, d)).endDate == d.endDate &&
              EditDraft(parse, Experience, WithPeriod(format, d)).isCurrent == (if d.isCurrent.None? then Some(false) else d.isCurrent)
  {
    var s := format(d.startDate.value);
    assert DisplayFormat(format, d.startDate) == s;
    assert ParseToIso(parse, Some(s)) == d.startDate.value;
    if d.isCurrent == Some(true) {
      EditStillWorking(parse, WithPeriod(format, d), s, PRESENT);
    } else {
      var e := format(d.endDate.value);
      assert DisplayFormat(format, d.endDate) == e;
      assert WithPeriod(format, d).period == Some(s + " - " + e);
      SplitOnPeriod(s, e);
      NoDashOneSplit(e);
      assert ParseToIso(parse, Some(e)) == d.endDate.value;
    }
  }

  /* ---------- Reference initials ---------- */

  function FirstChar(s: string): string
  {
    if s == "" then "" else s[..1]
  }

  /** `name.split(' ').map(n => n[0]).slice(0, 2).join('')`: the first
      characters of the first two space-separated pieces (an empty piece adds
      nothing). */
  function Initials(name: string): (r: string)
    ensures |r| <= 2
  {
    var parts := Split(name, ' ');
    FirstChar(parts[0]) + (if |parts| > 1 then FirstChar(parts[1]) else "")
  }

  /** The first piece of a word followed by nothing or a space is the
      word. */
  lemma FirstPiece(word: string, rest: string)
    requires ' ' !in word && (rest == "" || rest[0] == ' ')
    ensures Split(word + rest, ' ')[0] == word
  {
    if rest == "" {
      assert word + rest == word;
    } else {
      assert word + rest == word + [' '] + rest[1..];
      SplitAfter(word, ' ', rest[1..]);
    }
  }

  /** Two words separated by one space give their first letters. */
  lemma InitialsOfTwoWords(first: string, second: string, rest: string)
    requires first != "" && second != "" && ' ' !in first && ' ' !in second
    requires rest == "" || rest[0] == ' '
    ensures Initials(first + " " + second + rest) == [first[0], second[0]]
  {
    var name := first + " " + second + rest;
    assert name == first + [' '] + (second + rest);
    SplitAfter(first, ' ', second + rest);
    FirstPiece(second, rest);
    var parts := Split(name, ' ');
    assert parts[0] == first && parts[1] == second;
    assert FirstChar(first) == [first[0]];
    assert FirstChar(second) == [second[0]];
  }

  /** A name without spaces gives one letter. */
  lemma InitialsOfOneWord(name: string)
    requires name != "" && ' ' !in name
    ensures Initials(name) == [name[0]]
  {
  }

  /* ---------- The page state ---------- */

  class AboutPageState {
    var expanded: Option<string>
    var loading: bool
    var modalOpen: bool
    var modalType: Option<Tab>
    var modal: Draft

    constructor ()
      ensures expanded == None && loading && !modalOpen && modalType == None && modal == EMPTY_DRAFT
    {
      expanded := None;
      loading := true;
      modalOpen := false;
      modalType := None;
      modal := EMPTY_DRAFT;
    }

    /** The answer to the page's fetch, given by its experience ids: the
        first experience is expanded; a failure changes nothing else.
        Loading ends either way. */
    method DataAnswered(experienceIds: Option<seq<string>>)
      modifies this
      ensures experienceIds.Some? && experienceIds.value != [] ==> expanded == Some(experienceIds.value[0])
      ensures !(experienceIds.Some? && experienceIds.value != []) ==> expanded == old(expanded)
      ensures !loading && modal == old(modal) && modalOpen == old(modalOpen)
    {
      if experienceIds.Some? && experienceIds.value != [] {
        expanded := Some(experienceIds.value[0]);
      }
      loading := false;
    }

    method Toggle(id: string)
      modifies this
      ensures expanded == ToggleExpand(old(expanded), id) && modal == old(modal)
    {
      expanded := ToggleExpand(expanded, id);
    }

    method Add(tab: Tab)
      modifies this
      ensures modalType == Some(tab) && modal == NewDraft(tab) && modalOpen && expanded == old(expanded)
    {
      modalType := Some(tab);
      modal := NewDraft(tab);
      modalOpen := true;
    }

    method Edit(parse: string -> string, tab: Tab, item: Draft)
      modifies this
      ensures modalType == Some(tab) && modal == EditDraft(parse, tab, item) && modalOpen && expanded == old(expanded)
    {
      modalType := Some(tab);
      modal := EditDraft(parse, tab, item);
      modalOpen := true;
    }

    /** A tag button; `selection` is `None` when the editor is not found. */
    method InsertTagButton(selection: Option<(int, int)>, tag: string) returns (cursor: Option<int>)
      modifies this
      ensures selection.None? ==> modal == old(modal) && cursor == None
      ensures selection.Some? ==>
                var ins := InsertTag(old(modal).description, selection.value.0, selection.value.1, tag);
                modal == old(modal).(description := Some(ins.text)) && cursor == Some(ins.cursor)
      ensures modalType == old(modalType) && modalOpen == old(modalOpen)
    {
      if selection.None? {
        cursor := None;
      } else {
        var ins := InsertTag(modal.description, selection.value.0, selection.value.1, tag);
        modal := modal.(description := Some(ins.text));
        cursor := Some(ins.cursor);
      }
    }

    /** The modal's save button: the service call to make. */
    method Submit(format: string -> string) returns (call: Option<AboutCall>)
      ensures call == SubmitCall(format, modalType, modal)
    {
      call := SubmitCall(format, modalType, modal);
    }

    /** The call's answer: a success closes the modal (and the page fetches
        again); a failure leaves it open. */
    method SubmitAnswered(succeeded: bool)
      modifies this
      ensures modalOpen == (old(modalOpen) && !succeeded)
      ensures modal == old(modal) && expanded == old(expanded)
    {
      if succeeded {
        modalOpen := false;
      }
    }
  }
}
