/**
 * The list logic of the gallery page (src/App.tsx): the tag list, the search and
 * tag filter, the selection, and the two ways the template list is rewritten
 * (after an upload and after a template is loaded in full).
 */
module Gallery {
  import opened Options
  import opened Seqs
  import opened JsStrings
  import opened Sorting
  import opened Templates

  predicate Distinct<T(==)>(s: seq<T>) {
    forall i, j :: 0 <= i < j < |s| ==> s[i] != s[j]
  }

  /** `x` is a tag of one of the templates. */
  predicate IsTagOf(templates: seq<WorkflowTemplate>, x: string) {
    exists i :: 0 <= i < |templates| && x in templates[i].tags
  }

  /** `x` is a tag of one of the first `i` templates or among the first `k` tags of template `i`. */
  predicate SeenBefore(templates: seq<WorkflowTemplate>, i: int, k: int, x: string)
    requires 0 <= i < |templates| && 0 <= k <= |templates[i].tags|
  {
    IsTagOf(templates[..i], x) || x in templates[i].tags[..k]
  }

  function Identity(s: string): string {
    s
  }

  /**
   * `availableTags`: every tag of every template added to a set, then the set's
   * elements sorted (`Array.from(tagSet).sort()`).
   */
  method AvailableTags(templates: seq<WorkflowTemplate>) returns (tags: seq<string>)
    ensures forall x :: x in tags <==> IsTagOf(templates, x)
    ensures forall i, j :: 0 <= i < j < |tags| ==> Less(tags[i], tags[j])
  {
    // the set, in insertion order
    var tagSet: seq<string> := [];
    var i := 0;
    while i < |templates|
      invariant 0 <= i <= |templates|
      invariant Distinct(tagSet)
      invariant forall x :: x in tagSet <==> IsTagOf(templates[..i], x)
    {
      var k := 0;
      while k < |templates[i].tags|
        invariant 0 <= k <= |templates[i].tags|
        invariant Distinct(tagSet)
        invariant forall x :: x in tagSet <==> SeenBefore(templates, i, k, x)
      {
        var tag := templates[i].tags[k];
        assert templates[i].tags[..k + 1] == templates[i].tags[..k] + [tag];
        if tag !in tagSet {
          tagSet := tagSet + [tag];
        }
        k := k + 1;
      }
      assert templates[i].tags[..k] == templates[i].tags;
      forall x ensures IsTagOf(templates[..i + 1], x) <==> SeenBefore(templates, i, k, x) {
        TagOfExtended(templates, i, x);
      }
      i := i + 1;
    }
    assert templates[..i] == templates;
    tags := SortBy(tagSet, Identity);
    SortBySorted(tagSet, Identity);
    DistinctMultiset(tagSet);
    DistinctMultiset(tags);
    forall x ensures x in tags <==> x in tagSet {
      assert x in tags <==> x in multiset(tags);
      assert x in tagSet <==> x in multiset(tagSet);
    }
    SortedDistinctIsStrict(tags);
  }

  lemma TagOfExtended(templates: seq<WorkflowTemplate>, i: int, x: string)
    requires 0 <= i < |templates|
    ensures IsTagOf(templates[..i + 1], x) <==> IsTagOf(templates[..i], x) || x in templates[i].tags
  {
    if IsTagOf(templates[..i + 1], x) {
      var j :| 0 <= j < i + 1 && x in templates[..i + 1][j].tags;
      if j < i {
        assert templates[..i][j] == templates[..i + 1][j];
      }
    }
    if IsTagOf(templates[..i], x) {
      var j :| 0 <= j < i && x in templates[..i][j].tags;
      assert templates[..i + 1][j] == templates[..i][j];
    }
    if x in templates[i].tags {
      assert templates[..i + 1][i] == templates[i];
    }
  }

  /** A sequence is duplicate-free exactly when every element occurs once in its multiset. */
  lemma {:induction false} DistinctMultiset<T>(s: seq<T>)
    ensures Distinct(s) <==> forall x :: multiset(s)[x] <= 1
  {
    if s != [] {
      var t := s[1..];
      assert s == [s[0]] + t;
      DistinctMultiset(t);
      assert multiset(s) == multiset{s[0]} + multiset(t);
      if Distinct(s) {
        assert Distinct(t) by {
          forall i, j | 0 <= i < j < |t| ensures t[i] != t[j] {
            assert t[i] == s[i + 1] && t[j] == s[j + 1];
          }
        }
        assert s[0] !in t by {
          forall j | 0 <= j < |t| ensures t[j] != s[0] {
            assert t[j] == s[j + 1];
          }
        }
      }
      if forall x :: multiset(s)[x] <= 1 {
        assert forall x :: multiset(t)[x] <= 1 by {
          forall x ensures multiset(t)[x] <= 1 {
            assert multiset(s)[x] >= multiset(t)[x];
          }
        }
        assert s[0] !in multiset(t) by {
          assert multiset(s)[s[0]] == 1 + multiset(t)[s[0]];
        }
        forall i, j | 0 <= i < j < |s| ensures s[i] != s[j] {
          if i == 0 {
            assert s[j] == t[j - 1];
          } else {
            assert s[i] == t[i - 1] && s[j] == t[j - 1];
          }
        }
      }
    }
  }

  /** Sorted without duplicates means strictly increasing. */
  lemma SortedDistinctIsStrict(s: seq<string>)
    requires SortedBy(s, Identity) && Distinct(s)
    ensures forall i, j :: 0 <= i < j < |s| ==> Less(s[i], s[j])
  {
    forall i, j | 0 <= i < j < |s| ensures Less(s[i], s[j]) {
      assert !Less(Identity(s[j]), Identity(s[i]));
      LessTotal(s[i], s[j]);
    }
  }

  /**
   * The search and tag test of `filteredTemplates`: the lower-cased name or
   * description contains the lower-cased query, and a selected tag (a truthy
   * `selectedTag`) is among the template's tags.
   */
  predicate Matches(t: WorkflowTemplate, query: string, selectedTag: Option<string>) {
    && (Contains(ToLower(t.name), ToLower(query)) || Contains(ToLower(t.description), ToLower(query)))
    && (selectedTag.None? || selectedTag.value == "" || selectedTag.value in t.tags)
  }

  /** `filteredTemplates`. */
  function Filtered(templates: seq<WorkflowTemplate>, query: string, selectedTag: Option<string>): (r: seq<WorkflowTemplate>)
    ensures forall i :: 0 <= i < |r| ==> Matches(r[i], query, selectedTag)
  {
    Filter(templates, (t: WorkflowTemplate) => Matches(t, query, selectedTag))
  }

  /** The filter keeps exactly the matching templates, in their order. */
  lemma FilteredExactly(templates: seq<WorkflowTemplate>, query: string, selectedTag: Option<string>, t: WorkflowTemplate)
    ensures t in Filtered(templates, query, selectedTag) <==> t in templates && Matches(t, query, selectedTag)
    ensures IsSubsequence(Filtered(templates, query, selectedTag), templates)
  {
    FilterMembership(templates, (t: WorkflowTemplate) => Matches(t, query, selectedTag), t);
    FilterIsSubsequence(templates, (t: WorkflowTemplate) => Matches(t, query, selectedTag));
  }

  /** With an empty query and no tag selected, every template is shown. */
  lemma EmptyQueryShowsAll(templates: seq<WorkflowTemplate>)
    ensures Filtered(templates, "", None) == templates
  {
    forall i | 0 <= i < |templates| ensures Matches(templates[i], "", None) {
      assert OccursAt(ToLower(templates[i].name), "", 0);
      ContainsAt(ToLower(templates[i].name), "");
    }
  }

  /** `selectedTemplates`: the templates whose id is selected. */
  function Selected(templates: seq<WorkflowTemplate>, ids: set<string>): (r: seq<WorkflowTemplate>)
    ensures forall i :: 0 <= i < |r| ==> r[i].id in ids
  {
    Filter(templates, (t: WorkflowTemplate) => t.id in ids)
  }

  /** The selection keeps exactly the templates with a selected id, in list order. */
  lemma SelectedExactly(templates: seq<WorkflowTemplate>, ids: set<string>, t: WorkflowTemplate)
    ensures t in Selected(templates, ids) <==> t in templates && t.id in ids
    ensures IsSubsequence(Selected(templates, ids), templates)
  {
    FilterMembership(templates, (t: WorkflowTemplate) => t.id in ids, t);
    FilterIsSubsequence(templates, (t: WorkflowTemplate) => t.id in ids);
  }

  /** The selection after `toggleTemplateSelection(id)`. */
  function Toggle(ids: set<string>, id: string): (r: set<string>)
    ensures id in r <==> id !in ids
    ensures forall x :: x != id ==> (x in r <==> x in ids)
  {
    if id in ids then ids - {id} else ids + {id}
  }

  /** `toggleTemplateSelection(templateId)`: copy the set, then delete or add the id. */
  method ToggleSelection(prev: set<string>, templateId: string) returns (next: set<string>)
    ensures next == Toggle(prev, templateId)
  {
    next := prev;
    if templateId in next {
      next := next - {templateId};
    } else {
      next := next + {templateId};
    }
  }

  /** Toggling twice restores the selection. */
  lemma ToggleTwice(ids: set<string>, id: string)
    ensures Toggle(Toggle(ids, id), id) == ids
  {
  }

  /** The list after an upload: the saved template first, then the others without its id. */
  function AfterUpload(prev: seq<WorkflowTemplate>, saved: WorkflowTemplate): (r: seq<WorkflowTemplate>)
    ensures r != [] && r[0] == saved
    ensures forall i :: 1 <= i < |r| ==> r[i].id != saved.id
  {
    [saved] + Filter(prev, (t: WorkflowTemplate) => t.id != saved.id)
  }

  /**
   * After an upload the saved template is the only one with its id; the others are
   * the previous entries with a different id, in their previous order.
   */
  lemma AfterUploadShape(prev: seq<WorkflowTemplate>, saved: WorkflowTemplate, t: WorkflowTemplate)
    ensures t in AfterUpload(prev, saved)[1..] <==> t in prev && t.id != saved.id
    ensures IsSubsequence(AfterUpload(prev, saved)[1..], prev)
    ensures forall i :: 0 <= i < |AfterUpload(prev, saved)| && AfterUpload(prev, saved)[i].id == saved.id ==> i == 0
  {
    var rest := Filter(prev, (t: WorkflowTemplate) => t.id != saved.id);
    assert AfterUpload(prev, saved)[1..] == rest;
    FilterMembership(prev, (t: WorkflowTemplate) => t.id != saved.id, t);
    FilterIsSubsequence(prev, (t: WorkflowTemplate) => t.id != saved.id);
  }

  /** Ids that were distinct stay distinct after an upload. */
  lemma AfterUploadKeepsIdsDistinct(prev: seq<WorkflowTemplate>, saved: WorkflowTemplate)
    requires forall i, j :: 0 <= i < j < |prev| ==> prev[i].id != prev[j].id
    ensures var r := AfterUpload(prev, saved); forall i, j :: 0 <= i < j < |r| ==> r[i].id != r[j].id
  {
    var rest := Filter(prev, (t: WorkflowTemplate) => t.id != saved.id);
    FilterIsSubsequence(prev, (t: WorkflowTemplate) => t.id != saved.id);
    SubsequenceKeepsIdsDistinct(rest, prev);
  }

  lemma {:induction false} SubsequenceKeepsIdsDistinct(a: seq<WorkflowTemplate>, b: seq<WorkflowTemplate>)
    requires IsSubsequence(a, b)
    requires forall i, j :: 0 <= i < j < |b| ==> b[i].id != b[j].id
    ensures forall i, j :: 0 <= i < j < |a| ==> a[i].id != a[j].id
    decreases |b|
  {
    if a != [] && b != [] {
      assert forall i, j :: 0 <= i < j < |b[1..]| ==> b[1..][i].id != b[1..][j].id by {
        forall i, j | 0 <= i < j < |b[1..]| ensures b[1..][i].id != b[1..][j].id {
          assert b[1..][i] == b[i + 1] && b[1..][j] == b[j + 1];
        }
      }
      if a[0] == b[0] {
        SubsequenceKeepsIdsDistinct(a[1..], b[1..]);
        SubsequenceMembers(a[1..], b[1..]);
        forall j | 1 <= j < |a| ensures a[0].id != a[j].id {
          assert a[j] == a[1..][j - 1];
          var k :| 0 <= k < |b[1..]| && b[1..][k] == a[j];
          assert b[k + 1] == a[j];
        }
        forall i, j | 0 <= i < j < |a| ensures a[i].id != a[j].id {
          if i > 0 {
            assert a[i] == a[1..][i - 1] && a[j] == a[1..][j - 1];
          }
        }
      } else {
        SubsequenceKeepsIdsDistinct(a, b[1..]);
      }
    }
  }

  lemma {:induction false} SubsequenceMembers<T>(a: seq<T>, b: seq<T>)
    requires IsSubsequence(a, b)
    ensures forall i :: 0 <= i < |a| ==> exists k :: 0 <= k < |b| && b[k] == a[i]
    decreases |b|
  {
    if a != [] && b != [] {
      if a[0] == b[0] {
        SubsequenceMembers(a[1..], b[1..]);
        forall i | 1 <= i < |a| ensures exists k :: 0 <= k < |b| && b[k] == a[i] {
          assert a[i] == a[1..][i - 1];
          var k :| 0 <= k < |b[1..]| && b[1..][k] == a[i];
          assert b[k + 1] == a[i];
        }
        assert b[0] == a[0];
      } else {
        SubsequenceMembers(a, b[1..]);
        forall i | 0 <= i < |a| ensures exists k :: 0 <= k < |b| && b[k] == a[i] {
          var k :| 0 <= k < |b[1..]| && b[1..][k] == a[i];
          assert b[k + 1] == a[i];
        }
      }
    }
  }

  /** The list after `full` is loaded: every entry with its id gets `{ ...item, ...full }`. */
  function MergeHydrated(prev: seq<WorkflowTemplate>, full: WorkflowTemplate): (r: seq<WorkflowTemplate>)
    ensures |r| == |prev|
    ensures forall i :: 0 <= i < |prev| && prev[i].id != full.id ==> r[i] == prev[i]
    ensures forall i :: 0 <= i < |prev| && prev[i].id == full.id ==> r[i] == Overlay(prev[i], full)
  {
    Map(prev, (item: WorkflowTemplate) => if item.id == full.id then Overlay(item, full) else item)
  }

  /** Loading the same template twice leaves the list as loading it once did. */
  lemma MergeHydratedIdempotent(prev: seq<WorkflowTemplate>, full: WorkflowTemplate)
    ensures MergeHydrated(MergeHydrated(prev, full), full) == MergeHydrated(prev, full)
  {
    var once := MergeHydrated(prev, full);
    forall i | 0 <= i < |prev| ensures MergeHydrated(once, full)[i] == once[i] {
      if prev[i].id == full.id {
        OverlayIdempotent(prev[i], full);
      }
    }
  }

  /** The ids of the list do not change, and every entry with `full`'s id is loaded when `full` is. */
  lemma MergeHydratedIds(prev: seq<WorkflowTemplate>, full: WorkflowTemplate)
    ensures forall i :: 0 <= i < |prev| ==> MergeHydrated(prev, full)[i].id == prev[i].id
    ensures IsHydrated(full) ==>
      forall i :: 0 <= i < |prev| && prev[i].id == full.id ==> IsHydrated(MergeHydrated(prev, full)[i])
  {
  }

  /**
   * `ensureTemplateHydrated(template)` on the list `list`. `fetched` is what
   * loading the template by id gives (`None` when it fails and the call throws).
   * Returns the template handed back and the list afterwards.
   */
  function EnsureHydrated(list: seq<WorkflowTemplate>, template: WorkflowTemplate, fetched: Option<WorkflowTemplate>)
    : (r: (Option<WorkflowTemplate>, seq<WorkflowTemplate>))
    ensures IsHydrated(template) ==> r == (Some(template), list)
    ensures !IsHydrated(template) && fetched.None? ==> r == (None, list)
    ensures !IsHydrated(template) && fetched.Some? ==> r.0 == fetched && r.1 == MergeHydrated(list, fetched.value)
  {
    if IsHydrated(template) then (Some(template), list)
    else match fetched
      case None => (None, list)
      case Some(full) => (Some(full), MergeHydrated(list, full))
  }

  /** A template already loaded is returned as it is, whatever loading it again would give. */
  lemma HydratedReturnsEarly(list: seq<WorkflowTemplate>, template: WorkflowTemplate,
                             fetched: Option<WorkflowTemplate>, fetched': Option<WorkflowTemplate>)
    requires IsHydrated(template)
    ensures EnsureHydrated(list, template, fetched) == EnsureHydrated(list, template, fetched')
  {
  }
}
