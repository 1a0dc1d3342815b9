/** The project form's client-side state: the "vibe tools" multi-select
    (toggle, remove, labels, grouping), the submit button's enablement and
    the initial grant and category selections. */
module ToolPicker {
  import opened Wrappers
  import Validation

  /** No value is selected twice. */
  predicate NoDuplicates(s: seq<string>) {
    forall i, j :: 0 <= i < j < |s| ==> s[i] != s[j]
  }

  /** `prev.filter((t) => t !== value)`: every occurrence of `v` dropped,
      the rest kept in order. */
  function Without(s: seq<string>, v: string): (r: seq<string>)
    ensures forall t :: t in r <==> t in s && t != v
    ensures |r| <= |s|
    ensures v !in s ==> r == s
  {
    if |s| == 0 then []
    else if s[0] == v then Without(s[1..], v)
    else [s[0]] + Without(s[1..], v)
  }

  /** Dropping a value distributes over concatenation. */
  lemma {:induction false} WithoutAppend(a: seq<string>, b: seq<string>, v: string)
    ensures Without(a + b, v) == Without(a, v) + Without(b, v)
  {
    if |a| > 0 {
      assert (a + b)[1..] == a[1..] + b;
      WithoutAppend(a[1..], b, v);
    } else {
      assert a + b == b;
    }
  }

  /** In a list without duplicates, dropping a present value removes just
      its one position and keeps every other value where it was. */
  lemma RemovesInPlace(s: seq<string>, i: nat)
    requires NoDuplicates(s) && i < |s|
    ensures Without(s, s[i]) == s[..i] + s[i + 1..]
  {
    var v := s[i];
    assert s == s[..i] + [v] + s[i + 1..];
    assert v !in s[..i];
    assert v !in s[i + 1..];
    WithoutAppend(s[..i] + [v], s[i + 1..], v);
    WithoutAppend(s[..i], [v], v);
  }

  /** `toggleTool`: an absent value is appended at the end, a present one
      is removed. */
  function Toggle(s: seq<string>, v: string): (r: seq<string>)
    ensures v in r <==> v !in s
    ensures forall t :: t != v ==> (t in r <==> t in s)
    ensures v !in s ==> r == s + [v]
    ensures NoDuplicates(s) ==> NoDuplicates(r)
  {
    WithoutKeepsDistinct(s, v);
    if v in s then
      Without(s, v)
    else
      s + [v]
  }

  lemma {:induction false} WithoutKeepsDistinct(s: seq<string>, v: string)
    ensures NoDuplicates(s) ==> NoDuplicates(Without(s, v))
  {
    if |s| > 0 && NoDuplicates(s) {
      assert NoDuplicates(s[1..]) by {
        forall i, j | 0 <= i < j < |s[1..]|
          ensures s[1..][i] != s[1..][j]
        {
          assert s[1..][i] == s[i + 1] && s[1..][j] == s[j + 1];
        }
      }
      WithoutKeepsDistinct(s[1..], v);
      if s[0] != v {
        var r := Without(s, v);
        assert r == [s[0]] + Without(s[1..], v);
        assert s[0] !in Without(s[1..], v) by {
          assert s[0] !in s[1..];
        }
      }
    }
  }

  /** Toggling a value that was not selected, and toggling it again,
      restores the selection exactly. */
  lemma ToggleTwiceFromAbsent(s: seq<string>, v: string)
    requires v !in s
    ensures Toggle(Toggle(s, v), v) == s
  {
    var s' := s + [v];
    WithoutAppend(s, [v], v);
    assert Without([v], v) == [];
  }

  /** Toggling a selected value twice keeps the same values but moves it to
      the end: on a duplicate-free list the result holds the same values,
      and it equals the original exactly when the value was already last. */
  lemma ToggleTwiceFromPresent(s: seq<string>, i: nat)
    requires NoDuplicates(s) && i < |s|
    ensures Toggle(Toggle(s, s[i]), s[i]) == s[..i] + s[i + 1..] + [s[i]]
    ensures multiset(Toggle(Toggle(s, s[i]), s[i])) == multiset(s)
    ensures Toggle(Toggle(s, s[i]), s[i]) == s <==> i == |s| - 1
  {
    ToggleTwiceMoves(s, i);
    MovedToEnd(s, i);
  }

  /** Moving an entry of a duplicate-free list to the end keeps its values,
      and changes the list unless the entry was last. */
  lemma MovedToEnd(s: seq<string>, i: nat)
    requires NoDuplicates(s) && i < |s|
    ensures multiset(s[..i] + s[i + 1..] + [s[i]]) == multiset(s)
    ensures s[..i] + s[i + 1..] + [s[i]] == s <==> i == |s| - 1
  {
    var v := s[i];
    var moved := s[..i] + s[i + 1..] + [v];
    assert s == s[..i] + [v] + s[i + 1..];
    calc {
      multiset(moved);
      multiset(s[..i]) + multiset(s[i + 1..]) + multiset{v};
      multiset(s[..i] + [v] + s[i + 1..]);
    }
    if i == |s| - 1 {
      assert s[i + 1..] == [];
      assert s == s[..i] + [v];
    } else {
      assert moved[i] == s[i + 1] != s[i];
    }
  }

  /** The value toggled off and on again comes back at the end. */
  lemma ToggleTwiceMoves(s: seq<string>, i: nat)
    requires NoDuplicates(s) && i < |s|
    ensures Toggle(Toggle(s, s[i]), s[i]) == s[..i] + s[i + 1..] + [s[i]]
  {
    var v := s[i];
    RemovesInPlace(s, i);
    assert v !in s[..i] + s[i + 1..] by {
      WithoutKeepsDistinct(s, v);
    }
  }

  /** The smallest case: with two tools selected, toggling the first one
      twice leaves the other one first. */
  lemma ToggleTwiceReorders(a: string, b: string)
    requires a != b
    ensures Toggle(Toggle([a, b], a), a) == [b, a]
  {
    var s := [a, b];
    assert NoDuplicates(s);
    ToggleTwiceMoves(s, 0);
    assert s[..0] + s[1..] + [s[0]] == [b, a];
  }

  /** `removeTool`: every occurrence of the tool goes, the others stay in
      their order. */
  function Remove(s: seq<string>, v: string): (r: seq<string>)
    ensures forall t :: t in r <==> t in s && t != v
    ensures v !in s ==> r == s
  {
    Without(s, v)
  }

  /** Removing a selected tool from a list without duplicates takes out
      just its position and keeps the rest in order. */
  lemma RemoveKeepsOrder(s: seq<string>, i: nat)
    requires NoDuplicates(s) && i < |s|
    ensures Remove(s, s[i]) == s[..i] + s[i + 1..]
  {
    RemovesInPlace(s, i);
  }

  /** Removing twice is removing once. */
  lemma RemoveIdempotent(s: seq<string>, v: string)
    ensures Remove(Remove(s, v), v) == Remove(s, v)
  {
  }

  /** The first tool whose value is `v`. */
  function FindTool(tools: seq<Validation.Tool>, v: string): (r: Option<nat>)
    ensures r.Some? ==> r.value < |tools| && tools[r.value].value == v
    ensures r.Some? ==> forall j :: 0 <= j < r.value ==> tools[j].value != v
    ensures r.None? <==> forall j :: 0 <= j < |tools| ==> tools[j].value != v
  {
    if |tools| == 0 then None
    else if tools[0].value == v then Some(0)
    else
      match FindTool(tools[1..], v)
      case None => None
      case Some(k) => Some(k + 1)
  }

  /** `getToolLabel`: the tool's display label, or the value itself for a
      value that is not a known tool. */
  function ToolLabel(v: string): (r: string)
    ensures forall i :: 0 <= i < |Validation.VibeTools| && Validation.VibeTools[i].value == v ==>
              r == Validation.VibeTools[i].display
    ensures (forall i :: 0 <= i < |Validation.VibeTools| ==> Validation.VibeTools[i].value != v) ==> r == v
  {
    match FindTool(Validation.VibeTools, v)
    case None => v
    case Some(k) =>
      LabelIsUnique(v, k);
      Validation.VibeTools[k].display
  }

  lemma LabelIsUnique(v: string, k: nat)
    requires k < |Validation.VibeTools| && Validation.VibeTools[k].value == v
    requires forall j :: 0 <= j < k ==> Validation.VibeTools[j].value != v
    ensures forall i :: 0 <= i < |Validation.VibeTools| && Validation.VibeTools[i].value == v ==> i == k
  {
    forall i | 0 <= i < |Validation.VibeTools| && Validation.VibeTools[i].value == v
      ensures i == k
    {
      if k < i {
        Validation.ToolValuesDistinct(k, i);
      }
    }
  }

  /** The tools under one heading, in list order. */
  function InCategory(tools: seq<Validation.Tool>, c: string): (r: seq<Validation.Tool>)
    ensures forall t :: t in r <==> t in tools && t.category == c
  {
    if |tools| == 0 then []
    else if tools[0].category == c then [tools[0]] + InCategory(tools[1..], c)
    else InCategory(tools[1..], c)
  }

  /** One heading of the multi-select with its tools. */
  datatype Group = Group(category: string, tools: seq<Validation.Tool>)

  /** `groupedTools`: one group per heading, in heading order, headings
      without tools dropped. */
  function Grouped(categories: seq<string>, tools: seq<Validation.Tool>): seq<Group> {
    if |categories| == 0 then []
    else GroupOf(categories[0], tools) + Grouped(categories[1..], tools)
  }

  /** Every group is a listed heading with its (non-empty) tools, and every
      heading that has tools gets a group. */
  lemma {:induction false} GroupedFacts(categories: seq<string>, tools: seq<Validation.Tool>)
    ensures var r := Grouped(categories, tools);
            && |r| <= |categories|
            && (forall g :: g in r ==> g.category in categories && g.tools != [] && g.tools == InCategory(tools, g.category))
            && (forall c :: c in categories && InCategory(tools, c) != [] ==> exists g :: g in r && g.category == c)
  {
    if |categories| > 0 {
      GroupedFacts(categories[1..], tools);
      var r := Grouped(categories, tools);
      var head := GroupOf(categories[0], tools);
      var rest := Grouped(categories[1..], tools);
      assert r == head + rest;
      forall c | c in categories && InCategory(tools, c) != []
        ensures exists g :: g in r && g.category == c
      {
        if c == categories[0] {
          assert head[0] in r;
        } else {
          assert c in categories[1..];
          var g :| g in rest && g.category == c;
          assert g in r;
        }
      }
    }
  }

  /** The group of one heading, or nothing when no tool has it. */
  function GroupOf(c: string, tools: seq<Validation.Tool>): (r: seq<Group>)
    ensures |r| <= 1
    ensures r != [] <==> InCategory(tools, c) != []
    ensures forall g :: g in r ==> g == Group(c, InCategory(tools, c))
  {
    var g := InCategory(tools, c);
    if g != [] then [Group(c, g)] else []
  }

  /** Grouping follows the heading list: the groups of earlier headings
      come before those of later ones. */
  lemma {:induction false} GroupedAppend(a: seq<string>, b: seq<string>, tools: seq<Validation.Tool>)
    ensures Grouped(a + b, tools) == Grouped(a, tools) + Grouped(b, tools)
  {
    if |a| > 0 {
      assert (a + b)[0] == a[0];
      assert (a + b)[1..] == a[1..] + b;
      GroupedAppend(a[1..], b, tools);
      calc {
        Grouped(a + b, tools);
        GroupOf(a[0], tools) + Grouped(a[1..] + b, tools);
        GroupOf(a[0], tools) + (Grouped(a[1..], tools) + Grouped(b, tools));
        (GroupOf(a[0], tools) + Grouped(a[1..], tools)) + Grouped(b, tools);
      }
    } else {
      assert a + b == b;
    }
  }

  /** A tool whose heading is listed sits in that heading's group. */
  lemma ToolInItsGroup(categories: seq<string>, tools: seq<Validation.Tool>, t: Validation.Tool)
    requires t in tools && t.category in categories
    ensures exists g :: g in Grouped(categories, tools) && g.category == t.category && t in g.tools
  {
    assert t in InCategory(tools, t.category);
    assert InCategory(tools, t.category) != [];
    assert t.category in categories;
    GroupedFacts(categories, tools);
    var r := Grouped(categories, tools);
    assert exists g :: g in r && g.category == t.category;
    var g :| g in Grouped(categories, tools) && g.category == t.category;
    assert t in g.tools;
  }

  /** The multi-select's groups. */
  function GroupedTools(): seq<Group> {
    Grouped(Validation.ToolCategories, Validation.VibeTools)
  }

  /** Every tool is offered: each one sits in the group of its heading. */
  lemma EveryToolOffered(i: nat)
    requires i < |Validation.VibeTools|
    ensures exists g :: g in GroupedTools() && Validation.VibeTools[i] in g.tools
  {
    Validation.EveryToolHasGroup(i);
    ToolInItsGroup(Validation.ToolCategories, Validation.VibeTools, Validation.VibeTools[i]);
  }

  /** The submit button is disabled while the form is pending or while no
      tool is selected. */
  function SubmitDisabled(pending: bool, tools: seq<string>): (r: bool)
    ensures !pending ==> (r <==> tools == [])
    ensures pending ==> r
  {
    pending || |tools| == 0
  }

  /** Picking a first tool enables the button; removing the last one
      disables it again. */
  lemma EnablementFollowsSelection(v: string)
    ensures !SubmitDisabled(false, Toggle([], v))
    ensures SubmitDisabled(false, Remove([v], v))
  {
  }

  /** The form's initial state: no tools, the category OTHER, and the grant
      named by the `?grant=` parameter (none when it is absent or empty). */
  datatype FormState = FormState(tools: seq<string>, grantId: string, category: string)

  function InitialState(grantParam: Option<string>): (r: FormState)
    ensures r.tools == [] && r.category == "OTHER"
    ensures grantParam.Some? ==> r.grantId == grantParam.value
    ensures grantParam.None? ==> r.grantId == ""
  {
    FormState([], grantParam.GetOr(""), "OTHER")
  }

  /** The initial form cannot be submitted. */
  lemma InitialFormDisabled(grantParam: Option<string>)
    ensures SubmitDisabled(false, InitialState(grantParam).tools)
  {
  }
}
