/** The commit-graph node marker: for the commits of one VCS system it
    builds a dictionary from revision hash to the list of marks the graph
    view shows on that node — a group of Travis build states, the names of
    commit labels that are set, and `search` for every search query that
    matches. Marks are only ever appended. */
module NodeMarks {
  import opened Wrappers
  import opened Text
  import opened Grouping

  /** One mark on a node: a commit-label name or `search` (`Name`), or the
      de-duplicated Travis states of the commit's builds (`Group`). */
  datatype Tag = Name(name: string) | Group(states: set<string>)

  /** A commit with the data the marker reads: its revision hash and
      message, its boolean labels and the states of its Travis builds. */
  datatype Commit = Commit(revisionHash: string, message: string, labels: map<string, bool>, builds: seq<string>)

  /** A commit label field: the labelling approach and the label's name. */
  datatype LabelField = LabelField(approach: string, name: string)

  /** One append to the response: `tag` under `hash`. */
  datatype Mark = Mark(hash: string, tag: Tag)

  /** The filters the commits are selected with. */
  datatype Query = Labeled(name: string) | MessageMatches(search: string) | HashMatches(search: string)

  type Response = map<string, seq<Tag>>

  const ListSeparator := ","
  const TravisPrefix := "travis_"
  const SearchTag := Name("search")

  function MarkHash(m: Mark): string { m.hash }
  function MarkTag(m: Mark): Tag { m.tag }

  /** The response after the marks have been appended, in order, each under
      its hash (a hash's list is created on its first mark). */
  function Marked(marks: seq<Mark>): Response
  {
    Grouped(marks, MarkHash, MarkTag)
  }

  /** The tags under `h`, or none when `h` is not a key. */
  function TagsOf(response: Response, h: string): seq<Tag>
  {
    if h in response then response[h] else []
  }

  /** A query parameter is used only when it is present and not empty. */
  predicate Truthy(p: Option<string>)
  {
    p.Some? && p.value != []
  }

  // ---------------------------------------------------------------------
  // Travis builds

  /** `travis_<state>` for every build whose upper-cased state was asked
      for, in build order. */
  function TravisTags(builds: seq<string>, wanted: seq<string>): (tags: seq<string>)
    ensures |tags| <= |builds|
    decreases |builds|
  {
    if builds == [] then []
    else
      var b := builds[|builds| - 1];
      TravisTags(builds[..|builds| - 1], wanted) + (if Upper(b) in wanted then [TravisPrefix + b] else [])
  }

  /** `list(set(states))`: the states without duplicates. */
  function StateGroup(states: seq<string>): (t: Tag)
    ensures t.Group? && forall s :: s in t.states <==> s in states
    ensures t.states == {} <==> states == []
  {
    var g := set s | s in states;
    assert states != [] ==> states[0] in g;
    Group(g)
  }

  /** One group mark per commit that has at least one wanted build. */
  function TravisMarks(commits: seq<Commit>, wanted: seq<string>): (marks: seq<Mark>)
    ensures forall i :: 0 <= i < |marks| ==> marks[i].tag.Group? && marks[i].tag.states != {}
    decreases |commits|
  {
    if commits == [] then []
    else
      var c := commits[|commits| - 1];
      var tags := TravisTags(c.builds, wanted);
      TravisMarks(commits[..|commits| - 1], wanted)
        + (if tags != [] then [Mark(c.revisionHash, StateGroup(tags))] else [])
  }

  /** Every Travis mark is the group of a commit with that hash. */
  lemma {:induction false} TravisMarksFrom(commits: seq<Commit>, wanted: seq<string>)
    ensures forall m :: m in TravisMarks(commits, wanted) ==>
      exists j :: 0 <= j < |commits| && commits[j].revisionHash == m.hash
        && m.tag == StateGroup(TravisTags(commits[j].builds, wanted))
    decreases |commits|
  {
    if commits != [] {
      var init := commits[..|commits| - 1];
      var c := commits[|commits| - 1];
      var tags := TravisTags(c.builds, wanted);
      var prev := TravisMarks(init, wanted);
      assert TravisMarks(commits, wanted) == prev + (if tags != [] then [Mark(c.revisionHash, StateGroup(tags))] else []);
      TravisMarksFrom(init, wanted);
      forall m: Mark | m in TravisMarks(commits, wanted)
        ensures exists j :: 0 <= j < |commits| && commits[j].revisionHash == m.hash
                  && m.tag == StateGroup(TravisTags(commits[j].builds, wanted))
      {
        if m in prev {
          var j :| 0 <= j < |init| && init[j].revisionHash == m.hash
            && m.tag == StateGroup(TravisTags(init[j].builds, wanted));
          assert commits[j] == init[j];
        } else {
          assert commits[|commits| - 1] == c;
        }
      }
    }
  }

  /** Every commit with a wanted build gets its group. */
  lemma {:induction false} TravisMarksCover(commits: seq<Commit>, wanted: seq<string>, j: nat)
    requires j < |commits| && TravisTags(commits[j].builds, wanted) != []
    ensures Mark(commits[j].revisionHash, StateGroup(TravisTags(commits[j].builds, wanted))) in TravisMarks(commits, wanted)
    decreases |commits|
  {
    var init := commits[..|commits| - 1];
    if j < |init| {
      assert init[j] == commits[j];
      TravisMarksCover(init, wanted, j);
    }
  }

  /** Every tag is `travis_<s>` for a state `s` whose upper-cased form was
      asked for. */
  lemma {:induction false} TravisTagsShape(builds: seq<string>, wanted: seq<string>)
    ensures forall t :: t in TravisTags(builds, wanted) ==>
      TravisPrefix <= t && Upper(t[|TravisPrefix|..]) in wanted
    decreases |builds|
  {
    if builds != [] {
      var b := builds[|builds| - 1];
      TravisTagsShape(builds[..|builds| - 1], wanted);
      assert (TravisPrefix + b)[|TravisPrefix|..] == b;
    }
  }

  /** A state is in a commit's group exactly when one of its builds has that
      state and the state, upper-cased, was asked for. */
  lemma {:induction false} TravisTagsIff(builds: seq<string>, wanted: seq<string>, s: string)
    ensures TravisPrefix + s in TravisTags(builds, wanted) <==> s in builds && Upper(s) in wanted
    decreases |builds|
  {
    if builds != [] {
      var init := builds[..|builds| - 1];
      var b := builds[|builds| - 1];
      TravisTagsIff(init, wanted, s);
      assert builds == init + [b];
      if TravisPrefix + s == TravisPrefix + b {
        assert s == (TravisPrefix + s)[|TravisPrefix|..] == (TravisPrefix + b)[|TravisPrefix|..] == b;
      }
    }
  }

  // ---------------------------------------------------------------------
  // Labels and searches

  /** The name a label field is stored under: `<approach>_<name>`. */
  function LabelName(field: LabelField): (n: string)
    ensures '_' in n
  {
    field.approach + "_" + field.name
  }

  /** Case-insensitive containment (`__icontains`). */
  predicate ContainsIgnoringCase(text: string, search: string)
  {
    Contains(Lower(text), Lower(search))
  }

  predicate Matches(c: Commit, q: Query)
  {
    match q
    case Labeled(n) => n in c.labels && c.labels[n]
    case MessageMatches(s) => ContainsIgnoringCase(c.message, s)
    case HashMatches(s) => ContainsIgnoringCase(c.revisionHash, s)
  }

  function QueryTag(q: Query): (t: Tag)
    ensures q.Labeled? ==> t == Name(q.name)
    ensures !q.Labeled? ==> t == SearchTag
  {
    match q
    case Labeled(n) => Name(n)
    case _ => SearchTag
  }

  /** One mark per commit that matches the query, in commit order. */
  function QueryMarks(commits: seq<Commit>, q: Query): (marks: seq<Mark>)
    ensures |marks| <= |commits|
    ensures forall i :: 0 <= i < |marks| ==> marks[i].tag == QueryTag(q)
    decreases |commits|
  {
    if commits == [] then []
    else
      var c := commits[|commits| - 1];
      QueryMarks(commits[..|commits| - 1], q) + (if Matches(c, q) then [Mark(c.revisionHash, QueryTag(q))] else [])
  }

  /** Every mark of a query comes from a matching commit with that hash. */
  lemma {:induction false} QueryMarksFrom(commits: seq<Commit>, q: Query)
    ensures forall m :: m in QueryMarks(commits, q) ==>
      exists j :: 0 <= j < |commits| && commits[j].revisionHash == m.hash && Matches(commits[j], q)
    decreases |commits|
  {
    if commits != [] {
      var init := commits[..|commits| - 1];
      var c := commits[|commits| - 1];
      var prev := QueryMarks(init, q);
      assert QueryMarks(commits, q) == prev + (if Matches(c, q) then [Mark(c.revisionHash, QueryTag(q))] else []);
      QueryMarksFrom(init, q);
      forall m: Mark | m in QueryMarks(commits, q)
        ensures exists j :: 0 <= j < |commits| && commits[j].revisionHash == m.hash && Matches(commits[j], q)
      {
        if m in prev {
          var j :| 0 <= j < |init| && init[j].revisionHash == m.hash && Matches(init[j], q);
          assert commits[j] == init[j];
        } else {
          assert commits[|commits| - 1] == c;
        }
      }
    }
  }

  /** Every matching commit gets a mark with the query's tag. */
  lemma {:induction false} QueryMarksCover(commits: seq<Commit>, q: Query, j: nat)
    requires j < |commits| && Matches(commits[j], q)
    ensures Mark(commits[j].revisionHash, QueryTag(q)) in QueryMarks(commits, q)
    decreases |commits|
  {
    var init := commits[..|commits| - 1];
    if j < |init| {
      assert init[j] == commits[j];
      QueryMarksCover(init, q, j);
    }
  }

  /** The marks of the label ids, in id order; the first id without a label
      field fails the request. */
  function LabelMarks(ids: seq<string>, fields: map<string, LabelField>, commits: seq<Commit>): (r: Result<seq<Mark>, string>)
    ensures r.Success? <==> forall i :: 0 <= i < |ids| ==> ids[i] in fields
    ensures r.Failure? ==> r.error in ids && r.error !in fields
    ensures r.Success? ==> forall i :: 0 <= i < |r.value| ==> r.value[i].tag != SearchTag
    decreases |ids|
  {
    if ids == [] then Success([])
    else
      var id := ids[|ids| - 1];
      match LabelMarks(ids[..|ids| - 1], fields, commits)
      case Failure(e) => Failure(e)
      case Success(ms) =>
        if id !in fields then Failure(id)
        else Success(ms + QueryMarks(commits, Labeled(LabelName(fields[id]))))
  }

  /** The number of commits with hash `h` that match the query. */
  function CountMatches(commits: seq<Commit>, q: Query, h: string): nat
    decreases |commits|
  {
    if commits == [] then 0
    else
      var c := commits[|commits| - 1];
      CountMatches(commits[..|commits| - 1], q, h) + (if c.revisionHash == h && Matches(c, q) then 1 else 0)
  }

  // ---------------------------------------------------------------------
  // The whole request

  /** The Travis marks, when Travis states were asked for. */
  function TravisPart(commits: seq<Commit>, travis: Option<string>): seq<Mark>
  {
    if Truthy(travis) then TravisMarks(commits, Split(travis.value, ListSeparator)) else []
  }

  /** The label marks, when label ids were given. */
  function LabelPart(commits: seq<Commit>, labelParam: Option<string>, fields: map<string, LabelField>): Result<seq<Mark>, string>
  {
    if Truthy(labelParam) then LabelMarks(Split(labelParam.value, ListSeparator), fields, commits) else Success([])
  }

  /** The search marks, when a search text was given: message matches, then
      revision-hash matches. */
  function SearchPart(commits: seq<Commit>, search: Option<string>): seq<Mark>
  {
    if Truthy(search)
    then QueryMarks(commits, MessageMatches(search.value)) + QueryMarks(commits, HashMatches(search.value))
    else []
  }

  /** The marks in the order the view appends them: Travis groups, then
      labels (id by id), then message matches, then hash matches. */
  function AllMarks(commits: seq<Commit>, search: Option<string>, labelParam: Option<string>, travis: Option<string>,
                    fields: map<string, LabelField>): Result<seq<Mark>, string>
  {
    match LabelPart(commits, labelParam, fields)
    case Failure(id) => Failure(id)
    case Success(lm) => Success(TravisPart(commits, travis) + lm + SearchPart(commits, search))
  }

  /** The response of `mark_nodes`, or the label id that has no field. */
  function MarkNodes(commits: seq<Commit>, search: Option<string>, labelParam: Option<string>, travis: Option<string>,
                     fields: map<string, LabelField>): (r: Result<Response, string>)
    ensures r.Failure? <==>
      (Truthy(labelParam)
       && exists i :: 0 <= i < |Split(labelParam.value, ListSeparator)| && Split(labelParam.value, ListSeparator)[i] !in fields)
  {
    match AllMarks(commits, search, labelParam, travis, fields)
    case Failure(id) => Failure(id)
    case Success(marks) => Success(Marked(marks))
  }

  // ---------------------------------------------------------------------
  // Properties

  /** Appending marks never removes or rewrites a tag: every list of the
      earlier response is a prefix of the later one. */
  lemma MarkedGrows(a: seq<Mark>, b: seq<Mark>, h: string)
    ensures h in Marked(a) ==> h in Marked(a + b)
    ensures TagsOf(Marked(a), h) <= TagsOf(Marked(a + b), h)
  {
    GroupedIsSelect(a, MarkHash, MarkTag, h);
    GroupedIsSelect(a + b, MarkHash, MarkTag, h);
    SelectAppend(a, b, MarkHash, MarkTag, h);
  }

  /** A hash is a key exactly when it received a mark, and its list holds
      the tags of its marks in order. */
  lemma MarkedTags(marks: seq<Mark>, h: string)
    ensures h in Marked(marks) <==> exists i :: 0 <= i < |marks| && marks[i].hash == h
    ensures TagsOf(Marked(marks), h) == Select(marks, MarkHash, MarkTag, h)
  {
    GroupedIsSelect(marks, MarkHash, MarkTag, h);
    SelectNonEmpty(marks, h);
  }

  lemma {:induction false} SelectNonEmpty(marks: seq<Mark>, h: string)
    ensures Select(marks, MarkHash, MarkTag, h) != [] <==> exists i :: 0 <= i < |marks| && marks[i].hash == h
    decreases |marks|
  {
    if marks != [] {
      var init := marks[..|marks| - 1];
      SelectNonEmpty(init, h);
      if exists i :: 0 <= i < |marks| && marks[i].hash == h {
        var i :| 0 <= i < |marks| && marks[i].hash == h;
        if i < |init| {
          assert init[i].hash == h;
        }
      }
      if exists i :: 0 <= i < |init| && init[i].hash == h {
        var i :| 0 <= i < |init| && init[i].hash == h;
        assert marks[i].hash == h;
      }
    }
  }

  /** Marks without the `search` tag contribute no `search` to any list. */
  lemma {:induction false} NoSearchSelected(marks: seq<Mark>, h: string)
    requires forall i :: 0 <= i < |marks| ==> marks[i].tag != SearchTag
    ensures multiset(Select(marks, MarkHash, MarkTag, h))[SearchTag] == 0
    decreases |marks|
  {
    if marks != [] {
      NoSearchSelected(marks[..|marks| - 1], h);
    }
  }

  /** A query adds its tag to `h` once for every matching commit with that
      hash. */
  lemma {:induction false} QueryMarksCount(commits: seq<Commit>, q: Query, h: string)
    ensures multiset(Select(QueryMarks(commits, q), MarkHash, MarkTag, h))[QueryTag(q)] == CountMatches(commits, q, h)
    decreases |commits|
  {
    if commits != [] {
      var init := commits[..|commits| - 1];
      var c := commits[|commits| - 1];
      var prev := QueryMarks(init, q);
      QueryMarksCount(init, q, h);
      if Matches(c, q) {
        var m := Mark(c.revisionHash, QueryTag(q));
        var sel := Select(prev, MarkHash, MarkTag, h);
        var extra := if c.revisionHash == h then [QueryTag(q)] else [];
        assert QueryMarks(commits, q) == prev + [m];
        SelectSnoc(prev, m, MarkHash, MarkTag, h);
        assert multiset(sel + extra) == multiset(sel) + multiset(extra);
        assert multiset(extra)[QueryTag(q)] == if c.revisionHash == h then 1 else 0;
      } else {
        assert QueryMarks(commits, q) == prev;
      }
    }
  }

  /** Only the search marks count towards `search` in the concatenated
      marks. */
  lemma SearchOnlyFromSearches(t: seq<Mark>, lm: seq<Mark>, s1: seq<Mark>, s2: seq<Mark>, h: string)
    requires forall i :: 0 <= i < |t| ==> t[i].tag != SearchTag
    requires forall i :: 0 <= i < |lm| ==> lm[i].tag != SearchTag
    ensures multiset(Select(t + lm + (s1 + s2), MarkHash, MarkTag, h))[SearchTag]
      == multiset(Select(s1, MarkHash, MarkTag, h))[SearchTag] + multiset(Select(s2, MarkHash, MarkTag, h))[SearchTag]
  {
    SelectAppend(t + lm, s1 + s2, MarkHash, MarkTag, h);
    SelectAppend(t, lm, MarkHash, MarkTag, h);
    SelectAppend(s1, s2, MarkHash, MarkTag, h);
    NoSearchSelected(t, h);
    NoSearchSelected(lm, h);
  }

  /** `search` appears under a hash once per search query (message, then
      revision hash) that a commit with that hash matches. */
  lemma SearchTagCount(commits: seq<Commit>, search: Option<string>, labelParam: Option<string>, travis: Option<string>,
                       fields: map<string, LabelField>, h: string)
    requires MarkNodes(commits, search, labelParam, travis, fields).Success?
    ensures var tags := TagsOf(MarkNodes(commits, search, labelParam, travis, fields).value, h);
      multiset(tags)[SearchTag] == if Truthy(search)
        then CountMatches(commits, MessageMatches(search.value), h) + CountMatches(commits, HashMatches(search.value), h)
        else 0
  {
    var t := TravisPart(commits, travis);
    var lm := LabelPart(commits, labelParam, fields).value;
    var s1 := if Truthy(search) then QueryMarks(commits, MessageMatches(search.value)) else [];
    var s2 := if Truthy(search) then QueryMarks(commits, HashMatches(search.value)) else [];
    var marks := t + lm + (s1 + s2);
    assert SearchPart(commits, search) == s1 + s2;
    MarkedTags(marks, h);
    SearchOnlyFromSearches(t, lm, s1, s2, h);
    if Truthy(search) {
      QueryMarksCount(commits, MessageMatches(search.value), h);
      QueryMarksCount(commits, HashMatches(search.value), h);
    }
  }

  // ---------------------------------------------------------------------
  // The view's loops

  /** Appending one tag under a hash. The view writes it in two shapes
      (`if h not in response: response[h] = []` then `response[h].append(t)`,
      and `if h in response: response[h].append(t) else: response[h] = [t]`);
      both are this update. */
  function AddTag(response: Response, m: Mark): (r: Response)
    ensures r.Keys == response.Keys + {m.hash}
    ensures r[m.hash] == TagsOf(response, m.hash) + [m.tag]
    ensures forall h :: h in response && h != m.hash ==> r[h] == response[h]
  {
    response[m.hash := TagsOf(response, m.hash) + [m.tag]]
  }

  /** Appending a mark to the marks appends its tag to the response. */
  lemma MarkedStep(marks: seq<Mark>, m: Mark)
    ensures Marked(marks + [m]) == AddTag(Marked(marks), m)
  {
    assert (marks + [m])[..|marks|] == marks;
  }

  lemma TravisTagsStep(builds: seq<string>, wanted: seq<string>, j: nat)
    requires j < |builds|
    ensures TravisTags(builds[..j + 1], wanted)
      == TravisTags(builds[..j], wanted) + (if Upper(builds[j]) in wanted then [TravisPrefix + builds[j]] else [])
  {
    assert builds[..j + 1][..j] == builds[..j];
  }

  lemma TravisMarksStep(commits: seq<Commit>, wanted: seq<string>, i: nat)
    requires i < |commits|
    ensures var tags := TravisTags(commits[i].builds, wanted);
      TravisMarks(commits[..i + 1], wanted) == TravisMarks(commits[..i], wanted)
        + (if tags != [] then [Mark(commits[i].revisionHash, StateGroup(tags))] else [])
  {
    assert commits[..i + 1][..i] == commits[..i];
  }

  lemma QueryMarksStep(commits: seq<Commit>, q: Query, i: nat)
    requires i < |commits|
    ensures QueryMarks(commits[..i + 1], q)
      == QueryMarks(commits[..i], q) + (if Matches(commits[i], q) then [Mark(commits[i].revisionHash, QueryTag(q))] else [])
  {
    assert commits[..i + 1][..i] == commits[..i];
  }

  lemma LabelMarksStep(ids: seq<string>, fields: map<string, LabelField>, commits: seq<Commit>, k: nat)
    requires k < |ids|
    ensures LabelMarks(ids[..k + 1], fields, commits) == match LabelMarks(ids[..k], fields, commits)
      case Failure(e) => Failure(e)
      case Success(ms) =>
        if ids[k] !in fields then Failure(ids[k])
        else Success(ms + QueryMarks(commits, Labeled(LabelName(fields[ids[k]]))))
  {
    assert ids[..k + 1][..k] == ids[..k];
  }

  /** A failure on a prefix of the label ids is the failure of all of
      them. */
  lemma {:induction false} LabelMarksFailureSticks(ids: seq<string>, rest: seq<string>, fields: map<string, LabelField>, commits: seq<Commit>)
    requires LabelMarks(ids, fields, commits).Failure?
    ensures LabelMarks(ids + rest, fields, commits) == LabelMarks(ids, fields, commits)
    decreases |rest|
  {
    if rest == [] {
      assert ids + rest == ids;
    } else {
      LabelMarksFailureSticks(ids, rest[..|rest| - 1], fields, commits);
      assert (ids + rest)[..|ids + rest| - 1] == ids + rest[..|rest| - 1];
    }
  }

  /** Appends the marks of the commits that match `q` to `response`. */
  method AppendMatches(commits: seq<Commit>, q: Query, response: Response, ghost marks: seq<Mark>)
    returns (r: Response)
    requires response == Marked(marks)
    ensures r == Marked(marks + QueryMarks(commits, q))
  {
    r := response;
    ghost var all := marks;
    var i := 0;
    assert marks + QueryMarks(commits[..0], q) == marks;
    while i < |commits|
      invariant 0 <= i <= |commits|
      invariant all == marks + QueryMarks(commits[..i], q)
      invariant r == Marked(all)
    {
      var c := commits[i];
      QueryMarksStep(commits, q, i);
      if Matches(c, q) {
        var m := Mark(c.revisionHash, QueryTag(q));
        MarkedStep(all, m);
        assert marks + QueryMarks(commits[..i], q) + [m] == marks + (QueryMarks(commits[..i], q) + [m]);
        r := AddTag(r, m);
        all := all + [m];
      } else {
        assert QueryMarks(commits[..i + 1], q) == QueryMarks(commits[..i], q);
      }
      i := i + 1;
    }
    assert commits[..i] == commits;
  }

  /** The builds of one commit whose state was asked for, as tags. */
  method WantedStates(builds: seq<string>, wanted: seq<string>) returns (states: seq<string>)
    ensures states == TravisTags(builds, wanted)
  {
    states := [];
    var j := 0;
    while j < |builds|
      invariant 0 <= j <= |builds|
      invariant states == TravisTags(builds[..j], wanted)
    {
      TravisTagsStep(builds, wanted, j);
      if Upper(builds[j]) in wanted {
        states := states + [TravisPrefix + builds[j]];
      }
      j := j + 1;
    }
    assert builds[..j] == builds;
  }

  /** The Travis pass: one group of wanted states per commit that has
      any. */
  method MarkTravis(commits: seq<Commit>, wanted: seq<string>) returns (r: Response)
    ensures r == Marked(TravisMarks(commits, wanted))
  {
    r := map[];
    var i := 0;
    while i < |commits|
      invariant 0 <= i <= |commits|
      invariant r == Marked(TravisMarks(commits[..i], wanted))
    {
      var v := commits[i];
      var states := WantedStates(v.builds, wanted);
      TravisMarksStep(commits, wanted, i);
      if states != [] {
        var m := Mark(v.revisionHash, StateGroup(states));
        MarkedStep(TravisMarks(commits[..i], wanted), m);
        assert TravisMarks(commits[..i + 1], wanted) == TravisMarks(commits[..i], wanted) + [m];
        r := AddTag(r, m);
      } else {
        assert TravisMarks(commits[..i + 1], wanted) == TravisMarks(commits[..i], wanted);
      }
      i := i + 1;
    }
    assert commits[..i] == commits;
  }

  /** One step of the label pass: the commits carrying the label of
      `ids[k]` are appended to the response. */
  method AppendLabel(commits: seq<Commit>, ids: seq<string>, fields: map<string, LabelField>, k: nat,
                     response: Response, ghost marks: seq<Mark>, ghost done: seq<Mark>)
    returns (r: Response, ghost done': seq<Mark>)
    requires k < |ids| && ids[k] in fields
    requires LabelMarks(ids[..k], fields, commits) == Success(done)
    requires response == Marked(marks + done)
    ensures LabelMarks(ids[..k + 1], fields, commits) == Success(done')
    ensures r == Marked(marks + done')
  {
    var q := Labeled(LabelName(fields[ids[k]]));
    ghost var added := QueryMarks(commits, q);
    r := AppendMatches(commits, q, response, marks + done);
    LabelSuccessAt(ids, fields, commits, k, done);
    assert marks + done + added == marks + (done + added);
    done' := done + added;
  }

  /** The label pass: for every label id, in order, the commits that carry
      that label; the first id without a label field fails. */
  method MarkLabels(commits: seq<Commit>, ids: seq<string>, fields: map<string, LabelField>,
                    response: Response, ghost marks: seq<Mark>) returns (r: Result<Response, string>)
    requires response == Marked(marks)
    ensures LabelMarks(ids, fields, commits).Failure? ==> r == Failure(LabelMarks(ids, fields, commits).error)
    ensures LabelMarks(ids, fields, commits).Success? ==> r == Success(Marked(marks + LabelMarks(ids, fields, commits).value))
  {
    var acc := response;
    ghost var done: seq<Mark> := [];
    var k := 0;
    assert ids[..0] == [];
    assert marks + done == marks;
    while k < |ids|
      invariant 0 <= k <= |ids|
      invariant LabelMarks(ids[..k], fields, commits) == Success(done)
      invariant acc == Marked(marks + done)
    {
      if ids[k] !in fields {
        LabelFailureAt(ids, fields, commits, k);
        return Failure(ids[k]);
      }
      acc, done := AppendLabel(commits, ids, fields, k, acc, marks, done);
      k := k + 1;
    }
    assert ids[..k] == ids;
    r := Success(acc);
  }

  /** One more id with a field adds the marks of its label. */
  lemma LabelSuccessAt(ids: seq<string>, fields: map<string, LabelField>, commits: seq<Commit>, k: nat, done: seq<Mark>)
    requires k < |ids| && ids[k] in fields
    requires LabelMarks(ids[..k], fields, commits) == Success(done)
    ensures LabelMarks(ids[..k + 1], fields, commits) == Success(done + QueryMarks(commits, Labeled(LabelName(fields[ids[k]]))))
  {
    LabelMarksStep(ids, fields, commits, k);
  }

  /** The first id without a field is the failure of the whole list. */
  lemma LabelFailureAt(ids: seq<string>, fields: map<string, LabelField>, commits: seq<Commit>, k: nat)
    requires k < |ids| && ids[k] !in fields
    requires LabelMarks(ids[..k], fields, commits).Success?
    ensures LabelMarks(ids, fields, commits) == Failure(ids[k])
  {
    LabelMarksStep(ids, fields, commits, k);
    assert ids[..k + 1] + ids[k + 1..] == ids;
    LabelMarksFailureSticks(ids[..k + 1], ids[k + 1..], fields, commits);
  }

  /** The two search passes: message matches, then revision-hash matches. */
  method MarkSearch(commits: seq<Commit>, search: string, response: Response, ghost marks: seq<Mark>)
    returns (r: Response)
    requires response == Marked(marks)
    ensures r == Marked(marks + QueryMarks(commits, MessageMatches(search)) + QueryMarks(commits, HashMatches(search)))
  {
    var byMessage := MessageMatches(search);
    var byHash := HashMatches(search);
    r := AppendMatches(commits, byMessage, response, marks);
    r := AppendMatches(commits, byHash, r, marks + QueryMarks(commits, byMessage));
  }

  /** `mark_nodes`: the Travis pass, the label pass and the two search
      passes, in that order; an unknown label id fails the request. */
  method MarkNodesView(commits: seq<Commit>, search: Option<string>, labelParam: Option<string>, travis: Option<string>,
                       fields: map<string, LabelField>) returns (r: Result<Response, string>)
    ensures r == MarkNodes(commits, search, labelParam, travis, fields)
  {
    var response: Response := map[];
    ghost var t := TravisPart(commits, travis);
    if travis.Some? && travis.value != [] {
      response := MarkTravis(commits, Split(travis.value, ListSeparator));
    }
    ghost var l := LabelPart(commits, labelParam, fields);
    if labelParam.Some? && labelParam.value != [] {
      var ids := Split(labelParam.value, ListSeparator);
      var labelled := MarkLabels(commits, ids, fields, response, t);
      if labelled.Failure? {
        return Failure(labelled.error);
      }
      response := labelled.value;
    } else {
      assert t + l.value == t;
    }
    ghost var before := t + l.value;
    if search.Some? && search.value != [] {
      response := MarkSearch(commits, search.value, response, before);
      ghost var fromMessage := QueryMarks(commits, MessageMatches(search.value));
      ghost var fromHash := QueryMarks(commits, HashMatches(search.value));
      assert before + fromMessage + fromHash == before + (fromMessage + fromHash);
    } else {
      assert before + SearchPart(commits, search) == before;
    }
    r := Success(response);
  }
}
