/** The social media administration page: the list of links ordered by
    their display order, the form that creates or edits a link, and the
    toggle and delete buttons. A service call and its outcome are one step
    here: an `Option` answer is `None` when the call failed. */
module SocialMediaAdmin {
  import opened Wrappers
  import opened FrontendTypes
  import opened ToastContext

  /** `a.displayOrder || 0`. */
  function Key(l: SocialMedia): int
  {
    if l.displayOrder.Some? then l.displayOrder.value else 0
  }

  predicate SortedByOrder(s: seq<SocialMedia>)
  {
    forall i, j :: 0 <= i < j < |s| ==> Key(s[i]) <= Key(s[j])
  }

  /** Places `x` after every element whose key is not greater than its own,
      as a stable sort places the last element. */
  function Insert(s: seq<SocialMedia>, x: SocialMedia): (r: seq<SocialMedia>)
    ensures |r| == |s| + 1
  {
    if s == [] then [x]
    else if Key(x) < Key(s[0]) then [x] + s
    else [s[0]] + Insert(s[1..], x)
  }

  /** Inserting adds `x` and loses nothing. */
  lemma {:induction false} InsertPermutes(s: seq<SocialMedia>, x: SocialMedia)
    ensures multiset(Insert(s, x)) == multiset(s) + multiset{x}
  {
    if s != [] && Key(x) >= Key(s[0]) {
      InsertPermutes(s[1..], x);
      assert s == [s[0]] + s[1..];
    }
  }

  /** Every key of the result is at least a bound that every key of the
      input and of `x` reaches. */
  lemma {:induction false} InsertLowerBound(s: seq<SocialMedia>, x: SocialMedia, b: int)
    requires forall i :: 0 <= i < |s| ==> b <= Key(s[i])
    requires b <= Key(x)
    ensures forall k :: 0 <= k < |Insert(s, x)| ==> b <= Key(Insert(s, x)[k])
  {
    if s != [] && Key(x) >= Key(s[0]) {
      InsertLowerBound(s[1..], x, b);
      var r := Insert(s, x);
      assert r == [s[0]] + Insert(s[1..], x);
      forall k | 1 <= k < |r| ensures b <= Key(r[k]) {
        assert r[k] == Insert(s[1..], x)[k - 1];
      }
    }
  }

  lemma {:induction false} InsertSorted(s: seq<SocialMedia>, x: SocialMedia)
    requires SortedByOrder(s)
    ensures SortedByOrder(Insert(s, x))
  {
    if s == [] {
    } else if Key(x) < Key(s[0]) {
      var r := [x] + s;
      forall i, j | 0 <= i < j < |r| ensures Key(r[i]) <= Key(r[j]) {
        assert r[j] == s[j - 1];
        if i > 0 {
          assert r[i] == s[i - 1];
        }
      }
    } else {
      var t := s[1..];
      assert SortedByOrder(t);
      InsertSorted(t, x);
      InsertLowerBound(t, x, Key(s[0]));
      var it := Insert(t, x);
      var r := [s[0]] + it;
      assert Insert(s, x) == r;
      forall i, j | 0 <= i < j < |r| ensures Key(r[i]) <= Key(r[j]) {
        assert r[j] == it[j - 1];
        if i > 0 {
          assert r[i] == it[i - 1];
        }
      }
    }
  }

  /** Where `Insert` puts `x`: after the leading links whose key is at
      most its own. */
  function InsertPoint(s: seq<SocialMedia>, x: SocialMedia): (k: nat)
    ensures k <= |s|
  {
    if s == [] || Key(x) < Key(s[0]) then 0 else 1 + InsertPoint(s[1..], x)
  }

  lemma {:induction false} InsertAt(s: seq<SocialMedia>, x: SocialMedia)
    ensures Insert(s, x) == s[..InsertPoint(s, x)] + [x] + s[InsertPoint(s, x)..]
  {
    if s != [] && Key(x) >= Key(s[0]) {
      InsertAt(s[1..], x);
      var k := InsertPoint(s[1..], x);
      assert s[..k + 1] == [s[0]] + s[1..][..k];
      assert s[k + 1..] == s[1..][k..];
    }
  }

  /** On a sorted list the insertion point splits the links into those
      whose key is at most that of `x` and those whose key is greater. */
  lemma {:induction false} InsertPointSplits(s: seq<SocialMedia>, x: SocialMedia)
    requires SortedByOrder(s)
    ensures forall i :: 0 <= i < InsertPoint(s, x) ==> Key(s[i]) <= Key(x)
    ensures forall i :: InsertPoint(s, x) <= i < |s| ==> Key(s[i]) > Key(x)
  {
    if s != [] && Key(x) >= Key(s[0]) {
      InsertPointSplits(s[1..], x);
      forall i | 0 < i < InsertPoint(s, x) ensures Key(s[i]) <= Key(x) {
        assert s[i] == s[1..][i - 1];
      }
      forall i | InsertPoint(s, x) <= i < |s| ensures Key(s[i]) > Key(x) {
        assert s[i] == s[1..][i - 1];
      }
    }
  }

  /** `sort((a, b) => (a.displayOrder || 0) - (b.displayOrder || 0))`, a
      stable sort, as insertion of each element in turn. */
  function SortByOrder(s: seq<SocialMedia>): (r: seq<SocialMedia>)
    ensures |r| == |s|
  {
    if s == [] then []
    else Insert(SortByOrder(s[..|s| - 1]), s[|s| - 1])
  }

  /** The sort is a permutation of the links. */
  lemma {:induction false} SortPermutes(s: seq<SocialMedia>)
    ensures multiset(SortByOrder(s)) == multiset(s)
  {
    if s != [] {
      SortPermutes(s[..|s| - 1]);
      InsertPermutes(SortByOrder(s[..|s| - 1]), s[|s| - 1]);
      assert s == s[..|s| - 1] + [s[|s| - 1]];
    }
  }

  lemma {:induction false} SortIsSorted(s: seq<SocialMedia>)
    ensures SortedByOrder(SortByOrder(s))
  {
    if s != [] {
      SortIsSorted(s[..|s| - 1]);
      InsertSorted(SortByOrder(s[..|s| - 1]), s[|s| - 1]);
    }
  }

  /** A link whose key is at least every other goes last. */
  lemma {:induction false} InsertLast(s: seq<SocialMedia>, x: SocialMedia)
    requires forall i :: 0 <= i < |s| ==> Key(s[i]) <= Key(x)
    ensures Insert(s, x) == s + [x]
  {
    if s != [] {
      InsertLast(s[1..], x);
      assert s == [s[0]] + s[1..];
    }
  }

  /** A sorted list is its own sort: the sort moves nothing it need not. */
  lemma {:induction false} SortOfSorted(s: seq<SocialMedia>)
    requires SortedByOrder(s)
    ensures SortByOrder(s) == s
  {
    if s != [] {
      var init := s[..|s| - 1];
      assert SortedByOrder(init);
      SortOfSorted(init);
      InsertLast(init, s[|s| - 1]);
      assert init + [s[|s| - 1]] == s;
    }
  }

  /** A created link joins a sorted list after every link whose order is at
      most its own and before the rest. */
  lemma CreateInsertsInPlace(links: seq<SocialMedia>, created: SocialMedia)
    requires SortedByOrder(links)
    ensures SortByOrder(links + [created]) == Insert(links, created)
    ensures SortedByOrder(SortByOrder(links + [created]))
  {
    var s := links + [created];
    assert s[..|s| - 1] == links;
    SortOfSorted(links);
    SortIsSorted(s);
  }

  /** `links.map(link => link.id === id ? { ...link, isActive: !link.isActive } : link)`. */
  function ToggleById(links: seq<SocialMedia>, id: string): (r: seq<SocialMedia>)
    ensures |r| == |links|
    ensures forall i :: 0 <= i < |links| ==>
              r[i] == if links[i].id == id then links[i].(isActive := !links[i].isActive) else links[i]
  {
    seq(|links|, i requires 0 <= i < |links| =>
      if links[i].id == id then links[i].(isActive := !links[i].isActive) else links[i])
  }

  /** Toggling twice restores the list. */
  lemma ToggleTwice(links: seq<SocialMedia>, id: string)
    ensures ToggleById(ToggleById(links, id), id) == links
  {
    var r := ToggleById(ToggleById(links, id), id);
    assert forall i :: 0 <= i < |links| ==> r[i] == links[i];
  }

  /** `links.filter(link => link.id !== id)`. */
  function DeleteById(links: seq<SocialMedia>, id: string): (r: seq<SocialMedia>)
    ensures |r| <= |links|
  {
    if links == [] then []
    else (if links[0].id != id then [links[0]] else []) + DeleteById(links[1..], id)
  }

  /** Exactly the links with another id stay. */
  lemma {:induction false} DeleteByIdMembers(links: seq<SocialMedia>, id: string)
    ensures forall l :: l in DeleteById(links, id) <==> l in links && l.id != id
  {
    if links != [] {
      DeleteByIdMembers(links[1..], id);
      assert links == [links[0]] + links[1..];
    }
  }

  /** Deleting keeps the others in their order: it distributes over
      concatenation. */
  lemma {:induction false} DeleteKeepsOrder(a: seq<SocialMedia>, b: seq<SocialMedia>, id: string)
    ensures DeleteById(a + b, id) == DeleteById(a, id) + DeleteById(b, id)
  {
    if a == [] {
      assert a + b == b;
    } else {
      assert (a + b)[0] == a[0] && (a + b)[1..] == a[1..] + b;
      DeleteKeepsOrder(a[1..], b, id);
    }
  }

  /** `links.map(link => link.id === editingId ? updated : link)`. */
  function ReplaceById(links: seq<SocialMedia>, id: string, updated: SocialMedia): (r: seq<SocialMedia>)
    ensures |r| == |links|
    ensures forall i :: 0 <= i < |links| ==> r[i] == if links[i].id == id then updated else links[i]
  {
    seq(|links|, i requires 0 <= i < |links| => if links[i].id == id then updated else links[i])
  }

  /** Saving a link no other link shares the id of leaves the list as it
      was; saving the edited link itself changes nothing either. */
  lemma ReplaceUnchanged(links: seq<SocialMedia>, id: string, updated: SocialMedia)
    requires forall i :: 0 <= i < |links| && links[i].id == id ==> links[i] == updated
    ensures ReplaceById(links, id, updated) == links
  {
    var r := ReplaceById(links, id, updated);
    assert forall i :: 0 <= i < |links| ==> r[i] == links[i];
  }

  /** Replacing twice with the same link is replacing once, as long as the
      updated link keeps its id. */
  lemma ReplaceIdempotent(links: seq<SocialMedia>, id: string, updated: SocialMedia)
    requires updated.id == id
    ensures ReplaceById(ReplaceById(links, id, updated), id, updated) == ReplaceById(links, id, updated)
  {
    ReplaceUnchanged(ReplaceById(links, id, updated), id, updated);
  }

  /** The icons the page knows, the own keys of `IconMap`; any other name
      is meant to be drawn as Twitter. */
  const ICON_NAMES: set<string> := {"Twitter", "Instagram", "Github", "Linkedin", "Youtube", "LeetCode", "Medium"}

  /** `IconMap[link.iconName] || Twitter` as intended: an own key shows its
      icon and every other name shows Twitter (`IconLookupsAgree`,
      `InheritedNameDiscrepancy`). */
  function IconFor(iconName: string): (r: string)
    ensures r in ICON_NAMES
    ensures iconName in ICON_NAMES ==> r == iconName
    ensures iconName !in ICON_NAMES ==> r == "Twitter"
  {
    if iconName in ICON_NAMES then iconName else "Twitter"
  }

  /** The form preview: no icon for an empty name or an unknown one. */
  function PreviewIcon(iconName: string): (r: Option<string>)
    ensures r.Some? <==> iconName in ICON_NAMES
    ensures r.Some? ==> r.value == iconName
  {
    if iconName != "" && iconName in ICON_NAMES then Some(iconName) else None
  }

  /** The names every object literal inherits from `Object.prototype`.
      `IconMap[name]` finds a (truthy) function or object under each of
      them, although none is a key of the map. */
  const PROTOTYPE_NAMES: set<string> :=
    {"constructor", "toString", "toLocaleString", "valueOf", "hasOwnProperty", "isPrototypeOf",
     "propertyIsEnumerable", "__proto__", "__defineGetter__", "__defineSetter__",
     "__lookupGetter__", "__lookupSetter__"}

  /** What the property access `IconMap[name]` finds: an icon under one of
      the map's own keys, an inherited member, or `undefined`. */
  datatype IconLookup = Own(icon: string) | Inherited(member: string) | Missing

  function IconMapLookup(name: string): (r: IconLookup)
    ensures r.Own? <==> name in ICON_NAMES
    ensures r.Inherited? <==> name in PROTOTYPE_NAMES
    ensures r.Own? ==> r.icon == name
    ensures r.Inherited? ==> r.member == name
  {
    if name in ICON_NAMES then Own(name)
    else if name in PROTOTYPE_NAMES then Inherited(name)
    else Missing
  }

  /** What a list entry draws as written: the icon, or an inherited member
      of `Object.prototype` used as a component. */
  datatype Drawn = Icon(name: string) | NotAnIcon(member: string)

  /** `IconMap[name] || Twitter` as written: every found value is truthy,
      so only `undefined` falls back to Twitter. */
  function IconForAsWritten(name: string): Drawn
  {
    match IconMapLookup(name)
    case Own(icon) => Icon(icon)
    case Inherited(member) => NotAnIcon(member)
    case Missing => Icon("Twitter")
  }

  /** `formData.iconName ? (IconMap[formData.iconName] || null) : null` as
      written. */
  function PreviewIconAsWritten(name: string): Option<Drawn>
  {
    if name == "" then None
    else
      match IconMapLookup(name)
      case Own(icon) => Some(Icon(icon))
      case Inherited(member) => Some(NotAnIcon(member))
      case Missing => None
  }

  /** The icon name is free text, so a name such as "constructor" reaches
      the lookup: as written the list draws `Object` as a component and the
      preview shows it too, where a Twitter icon and no preview were
      intended. */
  lemma InheritedNameDiscrepancy(name: string)
    requires name in PROTOTYPE_NAMES
    ensures IconForAsWritten(name) == NotAnIcon(name) && IconFor(name) == "Twitter"
    ensures PreviewIconAsWritten(name) == Some(NotAnIcon(name)) && PreviewIcon(name) == None
  {
    assert name != "";
  }

  /** Off the inherited names, the lookups as written and the intended ones
      agree: the fallback only differs where `Object.prototype` answers. */
  lemma IconLookupsAgree(name: string)
    requires name !in PROTOTYPE_NAMES
    ensures IconForAsWritten(name) == Icon(IconFor(name))
    ensures PreviewIconAsWritten(name) == if PreviewIcon(name).Some? then Some(Icon(PreviewIcon(name).value)) else None
  {
  }

  /** The form's data: empty for a new link, a copy of the link while
      editing. */
  datatype LinkForm = LinkForm(id: Option<string>, name: string, url: string, iconName: string,
                               displayOrder: Option<int>, isActive: bool)

  const EMPTY_LINK_FORM := LinkForm(None, "", "", "", Some(0), true)

  function FormOf(l: SocialMedia): LinkForm
  {
    LinkForm(Some(l.id), l.name, l.url, l.iconName, l.displayOrder, l.isActive)
  }

  datatype AdminCall = Create(body: LinkForm) | Update(id: string, body: LinkForm)

  datatype Notice = Notice(message: string, kind: ToastType)

  class AdminPage {
    var links: seq<SocialMedia>
    var loading: bool
    var editingId: Option<string>
    var form: LinkForm

    constructor ()
      ensures links == [] && loading && editingId.None? && form == EMPTY_LINK_FORM
    {
      links := [];
      loading := true;
      editingId := None;
      form := EMPTY_LINK_FORM;
    }

    /** The list answered: it replaces the links, or a failure is told. */
    method LinksAnswered(data: Option<seq<SocialMedia>>) returns (notice: Option<Notice>)
      modifies this
      ensures data.Some? ==> links == data.value && notice.None?
      ensures data.None? ==> links == old(links) && notice == Some(Notice("Social media links could not be loaded", Error))
      ensures !loading && editingId == old(editingId) && form == old(form)
    {
      if data.Some? {
        links := data.value;
        notice := None;
      } else {
        notice := Some(Notice("Social media links could not be loaded", Error));
      }
      loading := false;
    }

    /** Drawing the list sorts the state's array in place. */
    method SortForDisplay()
      modifies this
      ensures links == SortByOrder(old(links)) && SortedByOrder(links)
      ensures loading == old(loading) && editingId == old(editingId) && form == old(form)
    {
      SortIsSorted(links);
      links := SortByOrder(links);
    }

    method ToggleActive(id: string, succeeded: bool) returns (notice: Notice)
      modifies this
      ensures succeeded ==> links == ToggleById(old(links), id) && notice == Notice("Status updated successfully", Success)
      ensures !succeeded ==> links == old(links) && notice == Notice("Status could not be updated", Error)
      ensures loading == old(loading) && editingId == old(editingId) && form == old(form)
    {
      if succeeded {
        links := ToggleById(links, id);
        notice := Notice("Status updated successfully", Success);
      } else {
        notice := Notice("Status could not be updated", Error);
      }
    }

    /** Deleting asks for confirmation first; only a confirmed, successful
        call removes the link. */
    method Delete(id: string, confirmed: bool, succeeded: bool) returns (notice: Option<Notice>)
      modifies this
      ensures !confirmed ==> links == old(links) && notice.None?
      ensures confirmed && succeeded ==> links == DeleteById(old(links), id) && notice == Some(Notice("Link deleted successfully", Success))
      ensures confirmed && !succeeded ==> links == old(links) && notice == Some(Notice("Link could not be deleted", Error))
      ensures loading == old(loading) && editingId == old(editingId) && form == old(form)
    {
      if !confirmed {
        notice := None;
        return;
      }
      if succeeded {
        links := DeleteById(links, id);
        notice := Some(Notice("Link deleted successfully", Success));
      } else {
        notice := Some(Notice("Link could not be deleted", Error));
      }
    }

    method Edit(link: SocialMedia)
      modifies this
      ensures editingId == Some(link.id) && form == FormOf(link)
      ensures links == old(links) && loading == old(loading)
    {
      editingId := Some(link.id);
      form := FormOf(link);
    }

    method CancelEdit()
      modifies this
      ensures editingId.None? && form == EMPTY_LINK_FORM
      ensures links == old(links) && loading == old(loading)
    {
      editingId := None;
      form := EMPTY_LINK_FORM;
    }

    method SetName(name: string)
      modifies this
      ensures form == old(form).(name := name)
      ensures links == old(links) && loading == old(loading) && editingId == old(editingId)
    {
      form := form.(name := name);
    }

    method SetIconName(iconName: string)
      modifies this
      ensures form == old(form).(iconName := iconName)
      ensures links == old(links) && loading == old(loading) && editingId == old(editingId)
    {
      form := form.(iconName := iconName);
    }

    method SetUrl(url: string)
      modifies this
      ensures form == old(form).(url := url)
      ensures links == old(links) && loading == old(loading) && editingId == old(editingId)
    {
      form := form.(url := url);
    }

    /** The number input, already parsed; an empty input is 0. */
    method SetDisplayOrder(order: int)
      modifies this
      ensures form == old(form).(displayOrder := Some(order))
      ensures links == old(links) && loading == old(loading) && editingId == old(editingId)
    {
      form := form.(displayOrder := Some(order));
    }

    /** The call the submit makes: an update of the link being edited, or
        a creation. */
    function SubmitCall(): (call: AdminCall)
      reads this
      ensures editingId.Some? && editingId.value != "" ==> call == Update(editingId.value, form)
      ensures !(editingId.Some? && editingId.value != "") ==> call == Create(form)
    {
      if editingId.Some? && editingId.value != "" then Update(editingId.value, form) else Create(form)
    }

    /** The submit's answer: an updated link replaces the edited one, a
        created link joins the list in display order; either way the form
        is reset. A failure changes nothing. */
    method SubmitAnswered(answer: Option<SocialMedia>) returns (notice: Notice)
      modifies this
      ensures answer.Some? && old(SubmitCall()).Update? ==>
                links == ReplaceById(old(links), old(SubmitCall()).id, answer.value) &&
                notice == Notice("Link updated successfully", Success)
      ensures answer.Some? && old(SubmitCall()).Create? ==>
                links == SortByOrder(old(links) + [answer.value]) &&
                notice == Notice("Link created successfully", Success)
      ensures answer.Some? ==> editingId.None? && form == EMPTY_LINK_FORM
      ensures answer.None? ==>
                links == old(links) && editingId == old(editingId) && form == old(form) &&
                notice == Notice("Transaction failed", Error)
      ensures loading == old(loading)
    {
      if answer.None? {
        notice := Notice("Transaction failed", Error);
        return;
      }
      var call := SubmitCall();
      if call.Update? {
        links := ReplaceById(links, call.id, answer.value);
        notice := Notice("Link updated successfully", Success);
      } else {
        links := SortByOrder(links + [answer.value]);
        notice := Notice("Link created successfully", Success);
      }
      editingId := None;
      form := EMPTY_LINK_FORM;
    }
  }
}
