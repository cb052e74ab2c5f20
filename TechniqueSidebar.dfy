/** The expand/collapse state of the technique sidebar
    (src/components/layout/TechniqueSidebar.tsx): the list of expanded
    category ids and the toggle that flips one of them. */
module Sidebar {

  /** The categories open on first render. */
  const InitialExpanded: seq<string> := ["basic", "strike"]

  /** `s.filter(x => x !== id)`. */
  function Without(s: seq<string>, id: string): (r: seq<string>)
    ensures id !in r
    ensures forall x :: x != id ==> (x in r <==> x in s)
    ensures |r| <= |s|
    ensures id in s ==> |r| < |s|
    ensures id !in s ==> r == s
  {
    if s == [] then [] else (if s[0] == id then [] else [s[0]]) + Without(s[1..], id)
  }

  /** Filtering `a + b` past a non-empty `a` deals with `a[0]` first. */
  lemma WithoutStep(a: seq<string>, b: seq<string>, id: string)
    requires a != []
    ensures Without(a + b, id) == (if a[0] == id then [] else [a[0]]) + Without(a[1..] + b, id)
  {
    assert (a + b)[0] == a[0] && (a + b)[1..] == a[1..] + b;
  }

  /** Regrouping a three-part concatenation. */
  lemma ConcatAssoc(a: seq<string>, b: seq<string>, c: seq<string>)
    ensures a + (b + c) == (a + b) + c
  {
  }

  /** Filtering a concatenation filters each part: the kept ids stay in
      their relative order. */
  lemma {:induction false} WithoutConcat(a: seq<string>, b: seq<string>, id: string)
    ensures Without(a + b, id) == Without(a, id) + Without(b, id)
  {
    if a == [] {
      assert a + b == b;
    } else {
      WithoutStep(a, b, id);
      WithoutStep(a, [], id);
      assert a + [] == a && a[1..] + [] == a[1..];
      WithoutConcat(a[1..], b, id);
      ConcatAssoc(if a[0] == id then [] else [a[0]], Without(a[1..], id), Without(b, id));
    }
  }

  /** `toggleCategory`: remove `id` when it is expanded, otherwise append it. */
  function Toggle(prev: seq<string>, id: string): (next: seq<string>)
    ensures id in next <==> id !in prev
    ensures forall x :: x != id ==> (x in next <==> x in prev)
    ensures id !in prev ==> next == prev + [id]
    ensures id in prev ==> |next| < |prev|
  {
    if id in prev then Without(prev, id) else prev + [id]
  }

  /** No id appears twice. */
  predicate NoDuplicates(s: seq<string>) {
    forall i, j :: 0 <= i < j < |s| ==> s[i] != s[j]
  }

  /** In a list without duplicates, collapsing `id` removes exactly its one
      occurrence and keeps the rest in order. */
  lemma ToggleRemovesOne(prev: seq<string>, id: string, k: nat)
    requires NoDuplicates(prev) && k < |prev| && prev[k] == id
    ensures Toggle(prev, id) == prev[..k] + prev[k + 1..]
  {
    assert prev == prev[..k] + ([id] + prev[k + 1..]);
    OnlyAt(prev, k);
    WithoutSingle(prev[..k], id, prev[k + 1..]);
  }

  /** Filtering out an id that occurs once, between `front` and `back`,
      leaves `front` followed by `back`. */
  lemma WithoutSingle(front: seq<string>, id: string, back: seq<string>)
    requires id !in front && id !in back
    ensures Without(front + ([id] + back), id) == front + back
  {
    WithoutConcat(front, [id] + back, id);
    WithoutConcat([id], back, id);
    assert Without([id], id) == [];
    assert [] + back == back;
  }

  /** In a duplicate-free list an id found at `k` occurs neither before nor
      after `k`. */
  lemma OnlyAt(s: seq<string>, k: nat)
    requires NoDuplicates(s) && k < |s|
    ensures s[k] !in s[..k] && s[k] !in s[k + 1..]
  {
    var front, back := s[..k], s[k + 1..];
    forall i | 0 <= i < |front| ensures front[i] != s[k] {
      assert front[i] == s[i];
    }
    forall i | 0 <= i < |back| ensures back[i] != s[k] {
      assert back[i] == s[k + 1 + i];
    }
  }

  /** Dropping one position keeps a list duplicate-free. */
  lemma RemoveAtKeepsNoDuplicates(s: seq<string>, k: nat)
    requires NoDuplicates(s) && k < |s|
    ensures NoDuplicates(s[..k] + s[k + 1..])
  {
    var r := s[..k] + s[k + 1..];
    assert forall i :: 0 <= i < |r| ==> r[i] == s[if i < k then i else i + 1];
  }

  /** Toggling keeps a duplicate-free list duplicate-free. */
  lemma ToggleKeepsNoDuplicates(prev: seq<string>, id: string)
    requires NoDuplicates(prev)
    ensures NoDuplicates(Toggle(prev, id))
  {
    if id in prev {
      var k :| 0 <= k < |prev| && prev[k] == id;
      ToggleRemovesOne(prev, id, k);
      RemoveAtKeepsNoDuplicates(prev, k);
    } else {
      var r := prev + [id];
      assert forall i :: 0 <= i < |prev| ==> r[i] == prev[i];
    }
  }

  /** Expanding a collapsed category and collapsing it again restores the
      list exactly. */
  lemma ToggleTwiceRestores(prev: seq<string>, id: string)
    requires id !in prev
    ensures Toggle(Toggle(prev, id), id) == prev
  {
    WithoutConcat(prev, [id], id);
  }

  /** The first render opens two distinct categories, "basic" and "strike". */
  lemma InitialExpandedShape()
    ensures NoDuplicates(InitialExpanded)
    ensures |InitialExpanded| == 2 && InitialExpanded[0] == "basic" && InitialExpanded[1] == "strike"
  {
  }
}
