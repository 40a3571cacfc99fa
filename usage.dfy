/** The per-build record of which documents contain a ProbLog box: the environment
    attribute `sphinx_problog_has_problog`, which is absent (`None`) until first used. */
module Usage {
  import opened Wrappers

  type UsageSet = Option<set<string>>

  /** The attribute exists and records `docname`. */
  predicate Uses(u: UsageSet, docname: string) {
    u.Some? && docname in u.value
  }

  /** The recorded documents, an absent attribute counting as empty. */
  function Members(u: UsageSet): (s: set<string>)
    ensures forall d :: d in s <==> Uses(u, d)
  {
    u.GetOr({})
  }

  /** What `ProbLog.run` does to the attribute: create it if absent, then add `docname`. */
  function Mark(u: UsageSet, docname: string): (r: UsageSet)
    ensures r.Some?
    ensures forall d :: Uses(r, d) <==> Uses(u, d) || d == docname
  {
    var s := if u.None? then {} else u.value;
    if docname !in s then Some(s + {docname}) else Some(s)
  }

  /** What `purge_problog_detect` does: remove `docname` if the attribute exists and
      holds it; an absent attribute stays absent. */
  function Purge(u: UsageSet, docname: string): (r: UsageSet)
    ensures r.Some? == u.Some?
    ensures forall d :: Uses(r, d) <==> Uses(u, d) && d != docname
  {
    if u.Some? && docname in u.value then Some(u.value - {docname}) else u
  }

  /** What `merge_problog_detect` does with the attribute of another environment:
      create it if absent, then take the union with the other one if that exists. */
  function Merge(u: UsageSet, other: UsageSet): (r: UsageSet)
    ensures r.Some?
    ensures forall d :: Uses(r, d) <==> Uses(u, d) || Uses(other, d)
  {
    var s := if u.None? then {} else u.value;
    if other.Some? then Some(s + other.value) else Some(s)
  }

  /** Marking a document twice is the same as marking it once. */
  lemma MarkIdempotent(u: UsageSet, docname: string)
    ensures Mark(Mark(u, docname), docname) == Mark(u, docname)
  {
  }

  /** Marking leaves the attribute unchanged once it exists and holds the document. */
  lemma MarkRecorded(u: UsageSet, docname: string)
    requires Uses(u, docname)
    ensures Mark(u, docname) == u
  {
  }

  /** Purging a document the attribute does not record changes nothing. */
  lemma PurgeUnrecorded(u: UsageSet, docname: string)
    requires !Uses(u, docname)
    ensures Purge(u, docname) == u
  {
  }

  /** Merging with another environment that has no attribute only creates the attribute. */
  lemma MergeAbsent(u: UsageSet)
    ensures Merge(u, None) == Some(Members(u))
  {
  }

  /** The merged record does not depend on the order in which workers' records arrive. */
  lemma MergeCommutes(u: UsageSet, v: UsageSet, w: UsageSet)
    ensures Merge(Merge(u, v), w) == Merge(Merge(u, w), v)
  {
    assert Members(Merge(Merge(u, v), w)) == Members(Merge(Merge(u, w), v));
  }

  /** Marking a document commutes with merging in a worker's record. */
  lemma MarkMergeCommute(u: UsageSet, v: UsageSet, docname: string)
    ensures Mark(Merge(u, v), docname) == Merge(Mark(u, docname), v)
  {
    assert Members(Mark(Merge(u, v), docname)) == Members(Merge(Mark(u, docname), v));
  }

  /** A rebuild (purge, then the directive marks again) leaves the same record as
      marking alone. */
  lemma PurgeThenMark(u: UsageSet, docname: string)
    ensures Mark(Purge(u, docname), docname) == Mark(u, docname)
  {
    assert Members(Mark(Purge(u, docname), docname)) == Members(Mark(u, docname));
  }

  /** On a fresh build: mark(A); mark(A); purge(B); merge({B, C}) records {A, B, C}, also
      when A and B are the same document (the merge brings it back). */
  lemma MarkPurgeMergeExample(a: string, b: string, c: string)
    ensures Merge(Purge(Mark(Mark(None, a), a), b), Some({b, c})) == Some({a, b, c})
  {
    var marked := Mark(None, a);
    assert marked == Some({a}) by { assert {} + {a} == {a}; }
    assert Mark(marked, a) == marked;
    if a == b {
      assert Purge(marked, b) == Some({}) by { assert {a} - {a} == {}; }
      assert {} + {b, c} == {a, b, c};
    } else {
      assert Purge(marked, b) == marked;
      assert {a} + {b, c} == {a, b, c};
    }
  }
}
