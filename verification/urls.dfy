/** The links the issue views build: the issue tracker's browse URL, to
    which an issue's external id is appended, and the repository's commit
    URL, to which a revision hash is appended. */
module IssueUrls {
  import opened Wrappers
  import opened Text

  const JiraBrowseUrl := "https://issues.apache.org/jira/browse/"
  const ReposSegment := "/repos/"
  const ApiHostPrefix := "api."
  const GitSuffix := ".git"
  const CommitPath := "/commit/"

  /** GitHub's API URL turned into the web URL: `/repos/` becomes `/` and
      `api.` is removed, and a trailing `/` is added when missing. */
  function GithubBrowseUrl(url: string): (base: string)
    ensures EndsWith(base, "/")
    ensures var stripped := Replace(Replace(url, ReposSegment, "/"), ApiHostPrefix, "");
      stripped <= base && |base| <= |stripped| + 1
      && (EndsWith(stripped, "/") ==> base == stripped)
  {
    var stripped := Replace(Replace(url, ReposSegment, "/"), ApiHostPrefix, "");
    if EndsWith(stripped, "/") then stripped else stripped + "/"
  }

  /** The issue tracker's browse URL. A URL naming neither Jira nor GitHub
      leaves the view without a base URL (`None`). */
  function IssueBaseUrl(trackerUrl: string): (base: Option<string>)
    ensures base.Some? <==> Contains(trackerUrl, "jira") || Contains(trackerUrl, "github")
    ensures Contains(trackerUrl, "jira") ==> base == Some(JiraBrowseUrl)
    ensures !Contains(trackerUrl, "jira") && Contains(trackerUrl, "github") ==> base == Some(GithubBrowseUrl(trackerUrl))
    ensures base.Some? ==> EndsWith(base.value, "/")
  {
    if Contains(trackerUrl, "jira") then Some(JiraBrowseUrl)
    else if Contains(trackerUrl, "github") then Some(GithubBrowseUrl(trackerUrl))
    else None
  }

  /** A GitHub web URL that is already in browse form is kept as it is. */
  lemma GithubWebUrlKept(url: string)
    requires !Contains(url, ReposSegment) && !Contains(url, ApiHostPrefix) && EndsWith(url, "/")
    ensures GithubBrowseUrl(url) == url
  {
    ReplaceAbsent(url, ReposSegment, "/");
    ReplaceAbsent(url, ApiHostPrefix, "");
  }

  /** The commit URL prefix as the views build it: every `.git` is removed
      from the repository URL before `/commit/` is appended. */
  function CommitBaseUrlAsWritten(repoUrl: string): (base: string)
    ensures EndsWith(base, CommitPath)
    ensures |base| <= |repoUrl| + |CommitPath|
  {
    RemovingShortens(repoUrl, GitSuffix);
    Replace(repoUrl, GitSuffix, "") + CommitPath
  }

  /** The commit URL prefix as intended: only a trailing `.git` is
      removed. */
  function CommitBaseUrl(repoUrl: string): (base: string)
    ensures EndsWith(base, CommitPath)
    ensures EndsWith(repoUrl, GitSuffix) ==> base == repoUrl[..|repoUrl| - |GitSuffix|] + CommitPath
    ensures !EndsWith(repoUrl, GitSuffix) ==> base == repoUrl + CommitPath
  {
    (if EndsWith(repoUrl, GitSuffix) then repoUrl[..|repoUrl| - |GitSuffix|] else repoUrl) + CommitPath
  }

  /** A clone URL and the same URL without `.git` lead to the same commit
      pages, and nothing before the suffix is changed. */
  lemma CommitBaseUrlStripsSuffixOnly(repo: string)
    requires !EndsWith(repo, GitSuffix)
    ensures CommitBaseUrl(repo + GitSuffix) == CommitBaseUrl(repo) == repo + CommitPath
  {
    var url := repo + GitSuffix;
    assert EndsWith(url, GitSuffix);
    assert url[..|url| - |GitSuffix|] == repo;
  }

  /** Both agree on every URL that does not contain `.git` at all. */
  lemma CommitBaseUrlsAgree(repoUrl: string)
    requires !Contains(repoUrl, GitSuffix)
    ensures CommitBaseUrlAsWritten(repoUrl) == CommitBaseUrl(repoUrl)
  {
    ReplaceAbsent(repoUrl, GitSuffix, "");
    ContainsIffOccurs(repoUrl, GitSuffix);
    assert !EndsWith(repoUrl, GitSuffix) by {
      if |GitSuffix| <= |repoUrl| {
        var i := |repoUrl| - |GitSuffix|;
        assert !OccursAt(repoUrl, GitSuffix, i);
        assert repoUrl[i..] == repoUrl[i..i + |GitSuffix|];
      }
    }
  }

  /** On an ordinary clone URL, whose only `.git` is the suffix, the form
      as written drops that suffix and agrees with the intended form. */
  lemma CommitBaseUrlAsWrittenOnCloneUrl(repo: string)
    requires !Contains(repo, GitSuffix)
    ensures CommitBaseUrlAsWritten(repo + GitSuffix) == repo + CommitPath
    ensures CommitBaseUrlAsWritten(repo + GitSuffix) == CommitBaseUrl(repo + GitSuffix)
  {
    NoOccurrenceAcrossDot(repo, GitSuffix);
    ReplaceSplitAt(repo, GitSuffix, GitSuffix, "");
    ReplaceAbsent(repo, GitSuffix, "");
    assert GitSuffix <= GitSuffix;
    assert GitSuffix[|GitSuffix|..] == [];
    CommitBaseUrlsAgree(repo);
    CommitBaseUrlStripsSuffixOnly(repo);
  }

  /** The name of a GitHub Pages repository, with the clone suffix. */
  const PagesRepoTail := ".github.io.git"

  /** The removal as written also cuts `.git` out of the middle of a URL:
      a GitHub Pages repository (`<owner>.github.io`) loses part of its
      name, while the intended removal keeps it. */
  lemma CommitBaseUrlAsWrittenCutsInside(owner: string)
    ensures CommitBaseUrl("/" + owner + PagesRepoTail) == "/" + owner + ".github.io" + CommitPath
    ensures CommitBaseUrlAsWritten("/" + owner + PagesRepoTail)
      == Replace("/" + owner, GitSuffix, "") + "hub.io" + CommitPath
    ensures CommitBaseUrlAsWritten("/" + owner + PagesRepoTail) != CommitBaseUrl("/" + owner + PagesRepoTail)
  {
    var a := "/" + owner;
    var url := a + PagesRepoTail;
    var intended := a + ".github.io" + CommitPath;
    var written := Replace(a, GitSuffix, "") + "hub.io" + CommitPath;
    assert CommitBaseUrl(url) == intended by {
      assert url[..|url| - |GitSuffix|] == a + ".github.io";
    }
    assert CommitBaseUrlAsWritten(url) == written by {
      NoOccurrenceAcrossDot(a, PagesRepoTail);
      ReplaceSplitAt(a, PagesRepoTail, GitSuffix, "");
      PagesTailReplaced();
    }
    RemovingShortens(a, GitSuffix);
    assert |written| < |intended|;
  }

  /** Removing a pattern never makes a text longer. */
  lemma {:induction false} RemovingShortens(s: string, pat: string)
    requires pat != []
    ensures |Replace(s, pat, "")| <= |s|
    decreases |s|
  {
    if s != [] {
      if pat <= s {
        RemovingShortens(s[|pat|..], pat);
      } else {
        RemovingShortens(s[1..], pat);
      }
    }
  }

  /** `.git` cannot straddle a boundary followed by `.`, since `.` occurs
      in `.git` only at its start. */
  lemma NoOccurrenceAcrossDot(a: string, tail: string)
    requires tail != [] && tail[0] == '.'
    ensures forall i :: 0 <= i < |a| < i + |GitSuffix| ==> !OccursAt(a + tail, GitSuffix, i)
  {
    forall i | 0 <= i < |a| < i + |GitSuffix|
      ensures !OccursAt(a + tail, GitSuffix, i)
    {
      var k := |a| - i;
      assert (a + tail)[i + k] == '.';
      assert GitSuffix[k] != '.';
      assert i + |GitSuffix| <= |a + tail| ==> (a + tail)[i..i + |GitSuffix|][k] == '.';
    }
  }

  /** `".github.io.git".replace(".git", "") == "hub.io"`. */
  lemma PagesTailReplaced()
    ensures Replace(PagesRepoTail, GitSuffix, "") == "hub.io"
  {
    assert GitSuffix <= PagesRepoTail;
    assert PagesRepoTail[|GitSuffix|..] == "hub.io.git";
    HubTailReplaced();
  }

  /** `"hub.io.git".replace(".git", "") == "hub.io"`. */
  lemma HubTailReplaced()
    ensures Replace("hub.io.git", GitSuffix, "") == "hub.io"
  {
    assert "hub.io.git"[0] != GitSuffix[0];
    ReplaceNoMatchStep("hub.io.git", GitSuffix, "");
    assert "ub.io.git"[0] != GitSuffix[0];
    ReplaceNoMatchStep("ub.io.git", GitSuffix, "");
    assert "b.io.git"[0] != GitSuffix[0];
    ReplaceNoMatchStep("b.io.git", GitSuffix, "");
    IoTailReplaced();
    assert "hub.io.git"[1..] == "ub.io.git" && "ub.io.git"[1..] == "b.io.git" && "b.io.git"[1..] == ".io.git";
    assert ['h'] + (['u'] + (['b'] + ".io")) == "hub.io";
  }

  /** `".io.git".replace(".git", "") == ".io"`. */
  lemma IoTailReplaced()
    ensures Replace(".io.git", GitSuffix, "") == ".io"
  {
    assert ".io.git"[1] != GitSuffix[1];
    ReplaceNoMatchStep(".io.git", GitSuffix, "");
    assert "io.git"[0] != GitSuffix[0];
    ReplaceNoMatchStep("io.git", GitSuffix, "");
    assert "o.git"[0] != GitSuffix[0];
    ReplaceNoMatchStep("o.git", GitSuffix, "");
    assert GitSuffix <= ".git" && ".git"[|GitSuffix|..] == [];
    assert ".io.git"[1..] == "io.git" && "io.git"[1..] == "o.git" && "o.git"[1..] == ".git";
    assert ['.'] + (['i'] + (['o'] + [])) == ".io";
  }

  /** One step of `Replace` where the text does not start with the
      pattern. */
  lemma ReplaceNoMatchStep(s: string, pat: string, rep: string)
    requires pat != [] && s != [] && !(pat <= s)
    ensures Replace(s, pat, rep) == [s[0]] + Replace(s[1..], pat, rep)
  {
  }

  /** A prefix test that fits inside `a` only looks at `a`. */
  lemma PrefixOfConcat(p: string, a: string, b: string)
    requires |p| <= |a|
    ensures p <= a + b <==> p <= a
  {
    assert (a + b)[..|p|] == a[..|p|];
  }

  /** When no occurrence of the pattern straddles the boundary between `a`
      and `b`, replacing distributes over the concatenation. */
  lemma {:induction false} ReplaceSplitAt(a: string, b: string, pat: string, rep: string)
    requires pat != []
    requires forall i :: 0 <= i < |a| < i + |pat| ==> !OccursAt(a + b, pat, i)
    ensures Replace(a + b, pat, rep) == Replace(a, pat, rep) + Replace(b, pat, rep)
    decreases |a|
  {
    var s := a + b;
    if a == [] {
      assert s == b;
    } else {
      var k := if |pat| <= |a| && pat <= a then |pat| else 1;
      assert s[k..] == a[k..] + b;
      forall i | 0 <= i < |a[k..]| < i + |pat|
        ensures !OccursAt(a[k..] + b, pat, i)
      {
        OccursShift(s, pat, k, i);
      }
      ReplaceSplitAt(a[k..], b, pat, rep);
      if |pat| <= |a| {
        PrefixOfConcat(pat, a, b);
      } else {
        assert !OccursAt(s, pat, 0);
        assert !(pat <= s);
      }
    }
  }
}
