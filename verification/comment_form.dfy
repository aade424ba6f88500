/** The comment form: the text area, the toolbar insertion, and the submit
    that hands the text to the page and clears it once the page's handler
    resolves. */
module CommentForm {
  import opened Wrappers
  import opened Text
  import opened EditorText

  /** `!content.trim()`: nothing but white space. */
  predicate Blank(content: string)
  {
    Trim(content) == ""
  }

  lemma BlankIff(content: string)
    ensures Blank(content) <==> AllSpace(content)
  {
    TrimEmptyIff(content);
  }

  /** The submit button's `disabled`. */
  function SubmitDisabled(loading: bool, content: string): bool
  {
    loading || Blank(content)
  }

  /** While not loading, the button is enabled exactly when the text holds
      a character other than white space; while loading, never. */
  lemma DisabledRule(loading: bool, content: string)
    ensures !loading ==> (SubmitDisabled(loading, content) <==> forall i :: 0 <= i < |content| ==> IsSpace(content[i]))
    ensures loading ==> SubmitDisabled(loading, content)
  {
    BlankIff(content);
  }

  /** The text after the page's handler settles: cleared when it resolved,
      kept when it threw. */
  function AfterSettled(content: string, resolved: bool): string
  {
    if resolved then "" else content
  }

  class CommentFormState {
    var content: string

    constructor ()
      ensures content == ""
    {
      content := "";
    }

    method Type(value: string)
      modifies this
      ensures content == value
    {
      content := value;
    }

    /** `handleInsert`, on the comment text area. */
    method HandleInsert(selection: Option<(int, int)>, prefix: string, suffix: string) returns (cursor: Option<int>)
      modifies this
      ensures selection.None? ==> content == old(content) && cursor == None
      ensures selection.Some? ==>
                var ins := InsertAround(old(content), selection.value.0, selection.value.1, prefix, suffix);
                content == ins.text && cursor == Some(ins.cursor)
    {
      if selection.None? {
        cursor := None;
      } else {
        var ins := InsertAround(content, selection.value.0, selection.value.1, prefix, suffix);
        content := ins.text;
        cursor := Some(ins.cursor);
      }
    }

    /** `handleSubmit`: the text handed to the page, if any. White space
        alone is never handed on; the text itself is sent untrimmed. */
    method Submit() returns (sent: Option<string>)
      ensures sent.None? <==> AllSpace(content)
      ensures sent.Some? ==> sent.value == content
    {
      BlankIff(content);
      sent := if Blank(content) then None else Some(content);
    }

    /** A pick from the heading, language or color menu of the toolbar.
        Those three menu buttons carry no `type`, and the toolbar sits inside
        the comment's form, so the click that inserts the menu's text also
        submits the form. `committed` says whether the insertion has been
        rendered by the time the submit handler runs: the handler then sees
        the new text, and otherwise the old one. */
    method MenuPick(selection: Option<(int, int)>, prefix: string, suffix: string, committed: bool)
        returns (cursor: Option<int>, sent: Option<string>)
      modifies this
      ensures selection.None? ==> content == old(content) && cursor == None
      ensures selection.Some? ==>
                var ins := InsertAround(old(content), selection.value.0, selection.value.1, prefix, suffix);
                content == ins.text && cursor == Some(ins.cursor)
      ensures var seen := if committed then content else old(content);
              (sent.None? <==> AllSpace(seen)) && (sent.Some? ==> sent.value == seen)
    {
      if committed {
        cursor := HandleInsert(selection, prefix, suffix);
        sent := Submit();
      } else {
        sent := Submit();
        cursor := HandleInsert(selection, prefix, suffix);
      }
    }

    /** The page's handler settled: resolved clears the text (whatever it
        is by then), a throw keeps it. */
    method Settled(resolved: bool)
      modifies this
      ensures content == AfterSettled(old(content), resolved)
    {
      content := AfterSettled(content, resolved);
    }
  }

  /** Inserting around a selection inside the text keeps every character of
      the text and adds the prefix and suffix, so the result holds a
      character other than white space when the text or the inserted
      strings do. A menu pick on such a text is therefore always posted,
      whichever text the submit handler sees. */
  lemma InsertKeepsNonBlank(text: string, start: int, end: int, prefix: string, suffix: string)
    requires 0 <= start <= end <= |text|
    ensures var r := InsertAround(text, start, end, prefix, suffix).text;
            !AllSpace(text) || !AllSpace(prefix) || !AllSpace(suffix) ==> !AllSpace(r)
  {
    InsertAroundPieces(text, start, end, prefix, suffix);
    var a, sel, b := text[..start], text[start..end], text[end..];
    assert text == a + sel + b;
    AllSpaceConcat(a, sel);
    AllSpaceConcat(a + sel, b);
    AllSpaceConcat(a, prefix);
    AllSpaceConcat(a + prefix, sel);
    AllSpaceConcat(a + prefix + sel, suffix);
    AllSpaceConcat(a + prefix + sel + suffix, b);
  }

  /** A concatenation is white space alone exactly when both parts are. */
  lemma AllSpaceConcat(a: string, b: string)
    ensures AllSpace(a + b) <==> AllSpace(a) && AllSpace(b)
  {
    if AllSpace(a + b) {
      forall i | 0 <= i < |a| ensures IsSpace(a[i]) {
        assert a[i] == (a + b)[i];
      }
      forall i | 0 <= i < |b| ensures IsSpace(b[i]) {
        assert b[i] == (a + b)[|a| + i];
      }
    }
  }

}
