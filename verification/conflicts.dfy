/** The issue-conflict queue: among the validated issues, those whose
    users disagree on the label, each issue once, with `max` counting how
    many of them there are. */
module IssueConflicts {
  import opened Grouping

  /** One issue validation together with the labels its users gave. */
  datatype Validation = Validation(issueId: string, labels: seq<string>)

  /** At most this many issues are returned per request. */
  const PageSize := 10

  /** `len(set(labels)) == 1`: every user gave the same label. */
  predicate AllSame(labels: seq<string>)
  {
    |set l | l in labels| == 1
  }

  /** The positions of the validations whose users all agree. */
  ghost function AgreeingAt(vs: seq<Validation>): set<nat>
  {
    set i: nat | i < |vs| && AllSame(vs[i].labels)
  }

  /** Validation `i` is disputed, and an earlier disputed validation has
      already queued its issue. */
  predicate RepeatedAt(vs: seq<Validation>, i: nat)
    requires i < |vs|
  {
    !AllSame(vs[i].labels)
    && exists j :: 0 <= j < i && vs[j].issueId == vs[i].issueId && !AllSame(vs[j].labels)
  }

  /** The positions of the disputed validations whose issue is already
      queued. */
  ghost function RepeatedPositions(vs: seq<Validation>): set<nat>
  {
    set i: nat | i < |vs| && RepeatedAt(vs, i)
  }

  /** The validations skipped because their labels agree: one per agreeing
      validation. */
  function Skipped(vs: seq<Validation>): (n: nat)
    ensures n == |AgreeingAt(vs)|
    decreases |vs|
  {
    if vs == [] then
      assert AgreeingAt(vs) == {};
      0
    else
      AgreeingSnoc(vs);
      Skipped(vs[..|vs| - 1]) + (if AllSame(vs[|vs| - 1].labels) then 1 else 0)
  }

  /** The agreeing positions of `vs` are those of its prefix, plus the last
      one when it agrees. */
  lemma AgreeingSnoc(vs: seq<Validation>)
    requires vs != []
    ensures var last := |vs| - 1;
      && last !in AgreeingAt(vs[..last])
      && AgreeingAt(vs) == AgreeingAt(vs[..last]) + (if AllSame(vs[last].labels) then {last} else {})
  {
    var last := |vs| - 1;
    var init := vs[..last];
    forall i: nat | i < last
      ensures i in AgreeingAt(vs) <==> i in AgreeingAt(init)
    {
      assert init[i] == vs[i];
    }
  }

  /** The ids of the disputed issues, each once, in order of first
      appearance. */
  function Disputed(vs: seq<Validation>): seq<string>
    decreases |vs|
  {
    if vs == [] then []
    else
      var ids := Disputed(vs[..|vs| - 1]);
      var v := vs[|vs| - 1];
      if AllSame(v.labels) || v.issueId in ids then ids else ids + [v.issueId]
  }

  /** The disputed validations whose issue was already queued: one per
      such validation. */
  function Duplicates(vs: seq<Validation>): (n: nat)
    ensures n == |RepeatedPositions(vs)|
    decreases |vs|
  {
    if vs == [] then
      assert RepeatedPositions(vs) == {};
      0
    else
      var init := vs[..|vs| - 1];
      var v := vs[|vs| - 1];
      RepeatedLast(vs);
      RepeatedSnoc(vs);
      Duplicates(init) + (if !AllSame(v.labels) && v.issueId in Disputed(init) then 1 else 0)
  }

  /** The last validation repeats an issue exactly when it is disputed and
      its issue is already in the queue of the prefix. */
  lemma RepeatedLast(vs: seq<Validation>)
    requires vs != []
    ensures var last := |vs| - 1;
      RepeatedAt(vs, last) <==> !AllSame(vs[last].labels) && vs[last].issueId in Disputed(vs[..last])
  {
    var last := |vs| - 1;
    var init := vs[..last];
    DisputedDistinct(init);
    assert forall j :: 0 <= j < last ==> init[j] == vs[j];
  }

  /** The repeated positions of `vs` are those of its prefix, plus the last
      one when it repeats an issue queued by the prefix. */
  lemma RepeatedSnoc(vs: seq<Validation>)
    requires vs != []
    ensures var last := |vs| - 1;
      && last !in RepeatedPositions(vs[..last])
      && RepeatedPositions(vs) == RepeatedPositions(vs[..last]) + (if RepeatedAt(vs, last) then {last} else {})
  {
    var last := |vs| - 1;
    var init := vs[..last];
    forall i: nat | i < last
      ensures i in RepeatedPositions(vs) <==> i in RepeatedPositions(init)
    {
      assert forall j :: 0 <= j <= i ==> init[j] == vs[j];
      assert RepeatedAt(vs, i) <==> RepeatedAt(init, i);
    }
  }

  /** Labels count as all the same exactly when there is at least one and
      they are all equal to the first. */
  lemma AllSameIff(labels: seq<string>)
    ensures AllSame(labels) <==> labels != [] && forall i :: 0 <= i < |labels| ==> labels[i] == labels[0]
  {
    var s := set l | l in labels;
    if labels != [] && forall i :: 0 <= i < |labels| ==> labels[i] == labels[0] {
      assert s == {labels[0]};
    }
    if labels == [] {
      assert s == {};
    }
    if AllSame(labels) {
      forall i | 0 <= i < |labels|
        ensures labels[i] == labels[0]
      {
        if labels[i] != labels[0] {
          assert {labels[i], labels[0]} <= s;
          assert |{labels[i], labels[0]}| == 2;
          SubsetCard({labels[i], labels[0]}, s);
        }
      }
    }
  }

  lemma SubsetCard(a: set<string>, b: set<string>)
    requires a <= b
    ensures |a| <= |b|
  {
    assert b == a + (b - a);
  }

  /** The queue has no repeated issue, and an issue is queued exactly when
      some validation of it is disputed. */
  lemma {:induction false} DisputedDistinct(vs: seq<Validation>)
    ensures Distinct(Disputed(vs))
    ensures forall id :: id in Disputed(vs) <==>
      exists i :: 0 <= i < |vs| && vs[i].issueId == id && !AllSame(vs[i].labels)
    decreases |vs|
  {
    if vs != [] {
      var init := vs[..|vs| - 1];
      DisputedDistinct(init);
      assert forall i :: 0 <= i < |init| ==> init[i] == vs[i];
    }
  }

  /** `max` ends up as the number of queued issues: every validation is
      queued, skipped or a duplicate. */
  lemma {:induction false} CountsAddUp(vs: seq<Validation>)
    ensures |vs| - Skipped(vs) - Duplicates(vs) == |Disputed(vs)|
    decreases |vs|
  {
    if vs != [] {
      CountsAddUp(vs[..|vs| - 1]);
    }
  }

  /** The loop over the validations: `issue_ids` and `result['max']`. */
  method ConflictQueue(vs: seq<Validation>) returns (issueIds: seq<string>, max: int)
    ensures issueIds == Disputed(vs)
    ensures max == |vs| - Skipped(vs) - Duplicates(vs)
    ensures max == |issueIds| && Distinct(issueIds)
  {
    max := |vs|;
    issueIds := [];
    var i := 0;
    while i < |vs|
      invariant 0 <= i <= |vs|
      invariant issueIds == Disputed(vs[..i])
      invariant max == |vs| - Skipped(vs[..i]) - Duplicates(vs[..i])
    {
      var iv := vs[i];
      assert vs[..i + 1][..i] == vs[..i];
      if |set l | l in iv.labels| == 1 {
        max := max - 1;
      } else if iv.issueId !in issueIds {
        issueIds := issueIds + [iv.issueId];
      } else {
        max := max - 1;
      }
      i := i + 1;
    }
    assert vs[..i] == vs;
    CountsAddUp(vs);
    DisputedDistinct(vs);
  }

  /** `issue_ids[:10]`: the first issues of the queue, at most ten. */
  function Page(issueIds: seq<string>): (page: seq<string>)
    ensures |page| <= PageSize
    ensures page <= issueIds
    ensures |issueIds| <= PageSize ==> page == issueIds
    ensures |issueIds| > PageSize ==> |page| == PageSize
  {
    if |issueIds| <= PageSize then issueIds else issueIds[..PageSize]
  }
}
