/** The template library of the prompt-template manager: the template list, the selection,
    the edit session with its drafts, and the single global optimisation token. */
module Library {
  import opened Common
  import opened Text

  /** A prompt template; `id` is the stable identity, `name` and `content` are editable. */
  datatype Template = Template(id: string, name: string, content: string)

  /** What a save of an edit session or a settled optimisation writes into a template. */
  datatype Revision = NameAndContent(name: string, content: string) | ContentOnly(content: string)

  /** `{ ...t, name, content }` or `{ ...t, content }`. */
  function Apply(t: Template, rev: Revision): (r: Template)
    ensures r.id == t.id
  {
    match rev
    case NameAndContent(n, c) => t.(name := n, content := c)
    case ContentOnly(c) => t.(content := c)
  }

  predicate HasId(ts: seq<Template>, id: string)
  {
    exists t :: t in ts && t.id == id
  }

  /** `templates.find(t => t.id === id)`: the first template with that id. */
  function Find(ts: seq<Template>, id: string): (r: Option<Template>)
    ensures r.None? <==> !HasId(ts, id)
    ensures r.Some? ==> r.value in ts && r.value.id == id
    ensures r.Some? ==> r.value == ts[FirstWithId(ts, id)]
  {
    if HasId(ts, id) then Some(ts[FirstWithId(ts, id)]) else None
  }

  /** Index of the first template with that id. */
  function FirstWithId(ts: seq<Template>, id: string): (k: nat)
    requires HasId(ts, id)
    ensures k < |ts| && ts[k].id == id
    ensures forall j :: 0 <= j < k ==> ts[j].id != id
  {
    if ts[0].id == id then 0
    else
      assert HasId(ts[1..], id) by {
        var t :| t in ts && t.id == id;
        assert t in ts[1..];
      }
      1 + FirstWithId(ts[1..], id)
  }

  /** `ts.map(t => t.id === id ? { ...t, ... } : t)`. */
  function Revised(ts: seq<Template>, id: string, rev: Revision): (r: seq<Template>)
    ensures |r| == |ts|
    ensures forall i :: 0 <= i < |ts| ==> r[i] == if ts[i].id == id then Apply(ts[i], rev) else ts[i]
  {
    if ts == [] then []
    else [if ts[0].id == id then Apply(ts[0], rev) else ts[0]] + Revised(ts[1..], id, rev)
  }

  /** `ts.filter(t => t.id !== id)`. */
  function Removed(ts: seq<Template>, id: string): (r: seq<Template>)
    ensures forall t :: t in r <==> t in ts && t.id != id
    ensures |r| <= |ts|
  {
    if ts == [] then []
    else if ts[0].id == id then Removed(ts[1..], id)
    else [ts[0]] + Removed(ts[1..], id)
  }

  /** Revising keeps every identity: the same ids are present before and after. */
  lemma RevisedKeepsIds(ts: seq<Template>, id: string, rev: Revision, x: string)
    ensures HasId(Revised(ts, id, rev), x) <==> HasId(ts, x)
  {
    var r := Revised(ts, id, rev);
    if HasId(ts, x) {
      var t :| t in ts && t.id == x;
      var i :| 0 <= i < |ts| && ts[i] == t;
      assert r[i] in r && r[i].id == x;
    }
    if HasId(r, x) {
      var t :| t in r && t.id == x;
      var i :| 0 <= i < |r| && r[i] == t;
      assert ts[i] in ts && ts[i].id == x;
    }
  }

  /** A revision addressed to an id that no longer exists changes nothing. */
  lemma RevisedAbsentIsIdentity(ts: seq<Template>, id: string, rev: Revision)
    requires !HasId(ts, id)
    ensures Revised(ts, id, rev) == ts
  {
    var r := Revised(ts, id, rev);
    forall i | 0 <= i < |ts| ensures r[i] == ts[i] {
      assert ts[i] in ts;
    }
  }

  /** Applying the same revision twice is the same as applying it once. */
  lemma RevisedIdempotent(ts: seq<Template>, id: string, rev: Revision)
    ensures Revised(Revised(ts, id, rev), id, rev) == Revised(ts, id, rev)
  {
    var r := Revised(ts, id, rev);
    var rr := Revised(r, id, rev);
    forall i | 0 <= i < |ts| ensures rr[i] == r[i] {
      if ts[i].id == id {
        assert Apply(Apply(ts[i], rev), rev) == Apply(ts[i], rev);
      }
    }
  }

  /** Filtering distributes over concatenation, so the kept templates stay in their order. */
  lemma {:induction false} RemovedDistributes(a: seq<Template>, b: seq<Template>, id: string)
    ensures Removed(a + b, id) == Removed(a, id) + Removed(b, id)
  {
    if a == [] {
      assert a + b == b;
    } else {
      assert (a + b)[0] == a[0] && (a + b)[1..] == a[1..] + b;
      RemovedDistributes(a[1..], b, id);
    }
  }

  /** Deleting removes exactly the templates with that id and keeps all others, in order. */
  lemma {:induction false} RemovedKeepsOrder(ts: seq<Template>, id: string, i: nat)
    requires i < |ts|
    ensures Removed(ts, id) == Removed(ts[..i], id) + (if ts[i].id == id then [] else [ts[i]]) + Removed(ts[i + 1..], id)
  {
    var pre, mid, post := ts[..i], [ts[i]], ts[i + 1..];
    assert ts == pre + (mid + post);
    RemovedDistributes(pre, mid + post, id);
    RemovedDistributes(mid, post, id);
    var a, b, c := Removed(pre, id), Removed(mid, id), Removed(post, id);
    assert b == if ts[i].id == id then [] else [ts[i]] by {
      assert mid[1..] == [];
    }
    assert a + (b + c) == a + b + c;
  }

  /** Deleting an id that no template has leaves the list as it was. */
  lemma {:induction false} RemovedAbsentIsIdentity(ts: seq<Template>, id: string)
    requires !HasId(ts, id)
    ensures Removed(ts, id) == ts
  {
    if ts != [] {
      assert ts[0] in ts;
      assert !HasId(ts[1..], id) by {
        forall t | t in ts[1..] ensures t.id != id {
          assert t in ts;
        }
      }
      RemovedAbsentIsIdentity(ts[1..], id);
    }
  }

  class TemplateLibrary {
    var templates: seq<Template>
    var selectedId: Option<string>
    var editingId: Option<string>
    var draftName: string
    var draftContent: string
    var optimizingId: Option<string>

    /** The selection and the edit session refer to templates that exist, or to none. */
    ghost predicate Valid()
      reads this
    {
      && (selectedId.Some? ==> HasId(templates, selectedId.value))
      && (editingId.Some? ==> HasId(templates, editingId.value))
    }

    /** The library as it starts: the stored templates, nothing selected, edited or optimising. */
    constructor (stored: seq<Template>)
      ensures Valid()
      ensures templates == stored && selectedId == None && editingId == None
      ensures draftName == "" && draftContent == "" && optimizingId == None
    {
      templates := stored;
      selectedId := None;
      editingId := None;
      draftName := "";
      draftContent := "";
      optimizingId := None;
    }

    /** The template the generator works from. */
    function SelectedTemplate(): (r: Option<Template>)
      reads this
      requires Valid()
      ensures r.Some? <==> selectedId.Some?
      ensures r.Some? ==> r.value in templates && r.value.id == selectedId.value
    {
      if selectedId.Some? then Find(templates, selectedId.value) else None
    }

    /** Every optimise button is enabled only while no optimisation token is held. */
    predicate OptimizeEnabled()
      reads this
    {
      !Truthy(optimizingId)
    }

    /** A click on a listed template selects it. */
    method Select(id: string)
      requires Valid() && HasId(templates, id)
      modifies this`selectedId
      ensures Valid() && selectedId == Some(id)
    {
      selectedId := Some(id);
    }

    method SetDraftName(name: string)
      requires Valid()
      modifies this`draftName
      ensures Valid() && draftName == name
    {
      draftName := name;
    }

    method SetDraftContent(content: string)
      requires Valid()
      modifies this`draftContent
      ensures Valid() && draftContent == content
    {
      draftContent := content;
    }

    /** Opens the edit session on a listed template, loading its fields into the drafts. */
    method EditClick(t: Template)
      requires Valid() && t in templates
      modifies this`editingId, this`draftName, this`draftContent
      ensures Valid()
      ensures editingId == Some(t.id) && draftName == t.name && draftContent == t.content
    {
      editingId := Some(t.id);
      draftName := t.name;
      draftContent := t.content;
    }

    /** Ends the edit session and empties the drafts. */
    method CancelEdit()
      requires Valid()
      modifies this`editingId, this`draftName, this`draftContent
      ensures Valid()
      ensures editingId == None && draftName == "" && draftContent == ""
    {
      editingId := None;
      draftName := "";
      draftContent := "";
    }

    /** Saves the drafts: a blank name or content changes nothing; otherwise the template being
        edited (an id that is truthy) gets the drafts, or a new template with `freshId` is appended;
        the edit session then ends. */
    method Save(freshId: string)
      requires Valid()
      modifies this`templates, this`editingId, this`draftName, this`draftContent
      ensures Valid()
      ensures Blank(old(draftName)) || Blank(old(draftContent)) ==>
        templates == old(templates) && editingId == old(editingId)
        && draftName == old(draftName) && draftContent == old(draftContent)
      ensures !Blank(old(draftName)) && !Blank(old(draftContent)) && Truthy(old(editingId)) ==>
        templates == Revised(old(templates), old(editingId).value, NameAndContent(old(draftName), old(draftContent)))
      ensures !Blank(old(draftName)) && !Blank(old(draftContent)) && !Truthy(old(editingId)) ==>
        templates == old(templates) + [Template(freshId, old(draftName), old(draftContent))]
      ensures !Blank(old(draftName)) && !Blank(old(draftContent)) ==>
        editingId == None && draftName == "" && draftContent == ""
    {
      if Blank(draftName) || Blank(draftContent) {
        return;
      }
      if Truthy(editingId) {
        forall x ensures HasId(Revised(templates, editingId.value, NameAndContent(draftName, draftContent)), x) <==> HasId(templates, x) {
          RevisedKeepsIds(templates, editingId.value, NameAndContent(draftName, draftContent), x);
        }
        templates := Revised(templates, editingId.value, NameAndContent(draftName, draftContent));
      } else {
        templates := templates + [Template(freshId, draftName, draftContent)];
      }
      CancelEdit();
    }

    /** Deletes every template with that id; a selection of it is cleared and an edit
        session on it is cancelled. */
    method Delete(id: string)
      requires Valid()
      modifies this`templates, this`selectedId, this`editingId, this`draftName, this`draftContent
      ensures Valid()
      ensures templates == Removed(old(templates), id)
      ensures selectedId == if old(selectedId) == Some(id) then None else old(selectedId)
      ensures old(editingId) == Some(id) ==> editingId == None && draftName == "" && draftContent == ""
      ensures old(editingId) != Some(id) ==>
        editingId == old(editingId) && draftName == old(draftName) && draftContent == old(draftContent)
    {
      if selectedId.Some? && selectedId.value != id {
        var t :| t in templates && t.id == selectedId.value;
        assert t in Removed(templates, id);
      }
      if editingId.Some? && editingId.value != id {
        var t :| t in templates && t.id == editingId.value;
        assert t in Removed(templates, id);
      }
      // React applies the three updates together; the edit session is ended first here so
      // that the invariant holds at the call of CancelEdit
      if editingId == Some(id) {
        CancelEdit();
      }
      templates := Removed(templates, id);
      if selectedId == Some(id) {
        selectedId := None;
      }
    }

    /** The synchronous part of an optimisation: an unknown id issues nothing; otherwise the
        token is taken and the template's current content is sent out. */
    method StartOptimize(id: string) returns (request: Option<string>)
      requires Valid()
      modifies this`optimizingId
      ensures Valid()
      ensures !HasId(templates, id) ==> request == None && optimizingId == old(optimizingId)
      ensures HasId(templates, id) ==>
        request == Some(Find(templates, id).value.content) && optimizingId == Some(id)
      ensures HasId(templates, id) && id != "" ==> !OptimizeEnabled()
    {
      var found := Find(templates, id);
      if found.None? {
        return None;
      }
      optimizingId := Some(id);
      request := Some(found.value.content);
    }

    /** The settle of an optimisation: success rewrites the content of the templates that still
        carry that id, failure leaves them; the token is released either way. */
    method SettleOptimize(id: string, outcome: Outcome<string>)
      requires Valid()
      modifies this`templates, this`optimizingId
      ensures Valid()
      ensures templates == if outcome.Succeeded? then Revised(old(templates), id, ContentOnly(outcome.value)) else old(templates)
      ensures optimizingId == None && OptimizeEnabled()
    {
      if outcome.Succeeded? {
        forall x ensures HasId(Revised(templates, id, ContentOnly(outcome.value)), x) <==> HasId(templates, x) {
          RevisedKeepsIds(templates, id, ContentOnly(outcome.value), x);
        }
        templates := Revised(templates, id, ContentOnly(outcome.value));
      }
      optimizingId := None;
    }

    /** The optimise button of a listed template: disabled while a token is held. */
    method ClickOptimize(id: string) returns (request: Option<string>)
      requires Valid()
      modifies this`optimizingId
      ensures Valid()
      ensures !old(OptimizeEnabled()) ==> request == None && optimizingId == old(optimizingId)
      ensures old(OptimizeEnabled()) && HasId(templates, id) ==>
        request == Some(Find(templates, id).value.content) && optimizingId == Some(id)
      ensures !HasId(templates, id) ==> request == None && optimizingId == old(optimizingId)
    {
      if !OptimizeEnabled() {
        return None;
      }
      request := StartOptimize(id);
    }
  }
}
