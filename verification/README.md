# visualSHARK: session store and labelling views, in Dafny

visualSHARK is a web front end for mined software-repository data. This
project models two parts of it and proves properties of the models.

**The frontend's basic Vuex store** (`frontend/app/src/store/modules/base.js`)
is modelled as the class `BaseStore.Store`. It holds:

- the login state (token, user, superuser flag, channel, login message);
- the stack of pending requests (`loading`);
- the list of API errors;
- the user messages pushed by the server, and the connection-test flags
  derived from them.

Each mutation is a method. Each method's postcondition states the whole new
state as an update of the old one. The two boolean getters are functions.
User messages are removed by object identity, so `UserMessage` is a class.
JavaScript's `splice(id, 1)` is modelled with its clamping of negative and
out-of-range start indices (`SpliceStart`).

**Pure and loop logic of the Django API views** (`visualSHARK/views.py`):

- `LineLabels`: manual line labelling (`LineLabelSet.post`).
  - The change keys `<hash>_<parent hash>_<file>`, and their parse.
  - Which diff lines need a label, and the number each is looked up under.
  - Per-line acceptance, or an error message.
  - The KeyError of a change without submitted labels.
  - The 400 answer that carries every error.
  - The regrouping of accepted labels per hunk, user and label.
- `NodeMarks`: the commit-graph node marker (`CommitGraphViewSet.mark_nodes`).
  It covers Travis state groups, commit-label names and `search` marks,
  appended to a per-commit list.
- `IssueConflicts`: the issue-conflict queue (`IssueConflictSet.get`).
  Validations whose users all agree are skipped and duplicates are dropped.
  `max` is counted down to the queue length, and the first ten are shown.
- `IssueUrls`: the issue tracker's browse URL and the repository's commit URL.
- `Permissions`: permission names reduced to their codename (`Auth.get`).

Supporting modules:

- `Text` models Python's `split`, `join`, `replace`, `in`, `endswith` and
  ASCII `upper`/`lower`. It proves `replace(p, r) == r.join(split(p))` and
  `sep.join(s.split(sep)) == s`.
- `Grouping` models the dictionary-of-lists idiom (`if k not in d: d[k] = []`,
  then `d[k].append(v)`) that the views repeat.
- `Wrappers` holds `Option` and `Result`.

Where a view loops, the loop is a method. Each such method is proved equal
to a function of its inputs: mostly a recursive one, and for `Regroup` the
map comprehension `Regrouped`. The properties are proved about these
functions. Database queries, the repository clone and the file reads
are inputs to the model: the commits, their changes and diff lines, the
Travis builds, the label fields and the validations.

## Model

| member | source | states |
|---|---|---|
| BaseStore.Store.constructor | frontend/app/src/store/modules/base.js:5-17 | The initial state. There is no token yet, the lists are empty and both connection tests are untested. |
| BaseStore.Store.IsLoading | frontend/app/src/store/modules/base.js:22 | The `loading` getter is true exactly when the pending-request stack is non-empty. |
| BaseStore.Store.HasError | frontend/app/src/store/modules/base.js:23 | The `error` getter is true exactly when the error list is non-empty. |
| BaseStore.Store.Login | frontend/app/src/store/modules/base.js:98-106 | LOGIN sets token, user, superuser flag and channel from the payload, sets loginSuccess and clears the login message. Nothing else changes. |
| BaseStore.Store.Logout | frontend/app/src/store/modules/base.js:107-113 | LOGOUT clears loginSuccess, the login message, the token (to null), the channel and the superuser flag. The user, loading stack, errors and user messages stay. |
| BaseStore.Store.PushLoading | frontend/app/src/store/modules/base.js:114-116 | Exactly one entry is appended to the stack, and the store is then loading. |
| BaseStore.Store.PopLoading | frontend/app/src/store/modules/base.js:117-119 | The last entry is removed, or nothing happens on an empty stack. Afterwards it is loading iff more than one entry was pending. |
| BaseStore.Store.LoginError | frontend/app/src/store/modules/base.js:120-122 | Only the login message changes, to "Login failed". |
| BaseStore.ErrorText | frontend/app/src/store/modules/base.js:125-130 | The message is the response's status text when a response exists, else the error's own message. |
| BaseStore.Store.PushError | frontend/app/src/store/modules/base.js:123-135 | Exactly one record is appended. Its id is the error count before the push and it carries the message and the full error. Nothing else changes. |
| BaseStore.PushKeepsIdsPositional | frontend/app/src/store/modules/base.js:131-134 | If every id equals its position before a push, it still does after the push. |
| BaseStore.SpliceStart | frontend/app/src/store/modules/base.js:137 | The start index of `splice(id, 1)`: a negative id counts from the end, and the index is clamped to the list bounds. |
| BaseStore.RemoveAt | frontend/app/src/store/modules/base.js:136-138 | `splice(id, 1)` at the clamped start index (a negative id counts from the end). When that index is inside the list, the length drops by one, earlier elements keep their place, later ones move down by one, and the multiset loses exactly the removed element. When the index is the length, nothing is removed. |
| BaseStore.RemoveInsideShiftsIds | frontend/app/src/store/modules/base.js:131-138 | Ids are not renumbered. After removing any record but the last, the record now at that position carries the next id, so ids no longer equal positions. |
| BaseStore.Store.PopError | frontend/app/src/store/modules/base.js:136-138 | POP_ERROR is splice by position. The list shrinks by one for a valid index, is unchanged for an index past the end, and no other field changes. |
| BaseStore.Store.PushUserMessage | frontend/app/src/store/modules/base.js:139-148 | The message is always appended. conRemote or conWorker takes the message's success only when `created` is false and the job type is the matching connection test. Nothing else changes. |
| BaseStore.Store.SetUserMessages | frontend/app/src/store/modules/base.js:149-151 | The whole list is replaced, and nothing else changes. |
| BaseStore.Without | frontend/app/src/store/modules/base.js:153 | The filtered list no longer holds the message. It keeps every other element of the list and holds nothing that was not in it. |
| BaseStore.WithoutAppend | frontend/app/src/store/modules/base.js:153 | Filtering distributes over concatenation, so the kept messages stay in their original order. |
| BaseStore.WithoutCounts | frontend/app/src/store/modules/base.js:153 | Every occurrence of the message is removed, and every other message keeps its number of occurrences. |
| BaseStore.Store.PopUserMessage | frontend/app/src/store/modules/base.js:152-154 | POP_USER_MESSAGE replaces the list by the filtered one. Only that field changes, and the message is gone. |
| LineLabels.ParseKeySucceeds | visualSHARK/views.py:1273 | A key built from hash, parent hash and file name always has two underscores, so the parse at line 1310 never fails on it. |
| LineLabels.KeyRoundTrip | visualSHARK/views.py:1310 | When neither hash contains `_`, parsing the key recovers hash, parent hash and file name exactly, even when the file name contains underscores. |
| LineLabels.UnderscoreInHashShiftsParts | visualSHARK/views.py:1310 | An underscore inside the revision hash shifts the parts. The text after it is read as the parent hash, and the real parent hash becomes part of the file name. |
| LineLabels.LookupNumber | visualSHARK/views.py:1284-1289 | The lookup number is `number`. In `old_new` mode it is the old number, or the new number when the old one is `-`. The result is `-` only when both are. |
| LineLabels.NeedingLabels | visualSHARK/views.py:1277-1280 | Exactly the lines whose old or new number is `-` are selected, all taken from the input. |
| LineLabels.SelectLinesNeedingLabels | visualSHARK/views.py:1277-1280 | The selection loop computes exactly `NeedingLabels`. |
| LineLabels.Outcome | visualSHARK/views.py:1291-1298 | A line is accepted iff its lookup number is submitted with a label other than the placeholder `label`. An accepted line carries that label, its hunk id, hunk line and code. A refused line gives the error message naming the number and the key. |
| LineLabels.Entries | visualSHARK/views.py:1291-1295 | No accepted entry carries the placeholder label. |
| LineLabels.OneOutcomePerLine | visualSHARK/views.py:1283-1298 | Every line needing a label yields exactly one of an entry or an error. |
| LineLabels.NoErrorsIffAllLabeled | visualSHARK/views.py:1283-1298 | A change has no error iff every line needing a label has a valid label. |
| LineLabels.HunkLabelsKeepEntries | visualSHARK/views.py:1292-1295 | Grouping by hunk id keeps each entry under its own hunk, in input order. A hunk is a key iff it received an entry, and the lists hold every entry. |
| LineLabels.LineNumberOf | visualSHARK/views.py:1284-1289 | The lookup loop picks exactly `LookupNumber`. |
| LineLabels.CheckLine | visualSHARK/views.py:1291-1298 | Checking one line gives exactly its outcome: the entry, or the error naming its number and key. |
| LineLabels.AppendLine | visualSHARK/views.py:1292-1295 | Creating the hunk's list when missing, then appending, gives the old list of that hunk plus the new line. Every other hunk is unchanged. |
| LineLabels.HunkLabelsStep | visualSHARK/views.py:1292-1295 | One more accepted line is appended to the list of its own hunk, and only there. |
| LineLabels.CheckAllStep | visualSHARK/views.py:1272-1301 | After a successful prefix, the next change either ends the check with its KeyError or appends its labels and errors. |
| LineLabels.CheckLines | visualSHARK/views.py:1283-1298 | The per-line loop builds exactly the grouping `HunkLabels` of `Entries` and the error list `Errors`. |
| LineLabels.CheckChangeLines | visualSHARK/views.py:1272-1302 | Checking one change gives exactly `CheckChange`. A KeyError happens only when some line needs a label and the key was not submitted. |
| LineLabels.CheckAllKeys | visualSHARK/views.py:1271-1302 | A successful check has one entry per change, in order, under that change's key. |
| LineLabels.CheckChangeNoErrors | visualSHARK/views.py:1283-1298 | A change contributes no error iff it is fully labelled. |
| LineLabels.CheckAllNoErrors | visualSHARK/views.py:1303-1305 | The whole submission has no error iff every change is fully labelled. |
| LineLabels.FailurePropagates | visualSHARK/views.py:1291 | A KeyError on a prefix of the changes is the result of the whole check. |
| LineLabels.FailureSticks | visualSHARK/views.py:1271-1291 | A KeyError at change `j` of commit `i` ends the whole check with that key. |
| LineLabels.CheckNextChange | visualSHARK/views.py:1272-1301 | One more change continues `CheckAll` exactly: its KeyError ends the check, otherwise its labels and errors are appended. |
| LineLabels.CheckCommit | visualSHARK/views.py:1272-1301 | The loop over one commit's changes continues `CheckAll` exactly, including its first KeyError. |
| LineLabels.CheckSubmission | visualSHARK/views.py:1271-1302 | The nested loops over commits and changes compute exactly `CheckAll` of the flattened changes, including the first KeyError. |
| LineLabels.RegroupKeepsEveryLine | visualSHARK/views.py:1317-1325 | Every accepted hunk line appears under its hunk, the submitting user and its label, in input order. The total number of lines is unchanged. |
| LineLabels.Regroup | visualSHARK/views.py:1317-1325 | The regrouping loops produce exactly hunk, then user, then label, then hunk lines. |
| LineLabels.PlanWrites | visualSHARK/views.py:1308-1325 | Every change's write target is its key split at the first two underscores, and its write is its regrouped labels. |
| LineLabels.Post | visualSHARK/views.py:1268-1338 | A missing key is a KeyError. Any error gives a 400 whose text is all errors joined by newlines, with nothing written. Otherwise each change's write target is its parsed key and its write is its regrouped labels. |
| NodeMarks.StateGroup | visualSHARK/views.py:541 | `list(set(states))` holds each requested state once, and is empty only for no states. |
| NodeMarks.TravisTags | visualSHARK/views.py:533-537 | At most one tag per build. |
| NodeMarks.TravisTagsShape | visualSHARK/views.py:533-537 | Every tag is `travis_<s>` for a state `s` whose upper-cased form was requested. |
| NodeMarks.TravisMarks | visualSHARK/views.py:530-541 | Every mark of the Travis pass carries a non-empty group of states. |
| NodeMarks.TravisMarksFrom | visualSHARK/views.py:530-541 | Every Travis mark comes from some commit: it carries that commit's hash and the group of its requested build states. |
| NodeMarks.TravisMarksCover | visualSHARK/views.py:530-541 | Every commit with at least one requested build state gets a Travis mark with its hash and that group. |
| NodeMarks.TravisTagsIff | visualSHARK/views.py:533-537 | `travis_<s>` is in a commit's group iff one of its builds has state `s` and the upper-cased `s` was requested. |
| NodeMarks.LabelName | visualSHARK/views.py:546 | A label name `<approach>_<name>` always contains `_`, so it is never `search`. |
| NodeMarks.QueryTag | visualSHARK/views.py:549-566 | A label query appends the label name, and both search queries append `search`. |
| NodeMarks.QueryMarks | visualSHARK/views.py:549-566 | A query gives at most one mark per commit, and every mark carries the query's tag. |
| NodeMarks.QueryMarksFrom | visualSHARK/views.py:549-566 | Every mark of a query carries the hash of some commit that matches the query. |
| NodeMarks.QueryMarksCover | visualSHARK/views.py:549-566 | Every commit that matches the query gets a mark with its hash and the query's tag. |
| NodeMarks.LabelMarks | visualSHARK/views.py:543-553 | The label pass fails iff some id has no label field, and the failure names such an id. It never appends `search`. |
| NodeMarks.MarkNodes | visualSHARK/views.py:524-568 | The request fails iff labels were asked for and some id has no label field. |
| NodeMarks.AddTag | visualSHARK/views.py:539-541 | One append creates the key if needed, adds the tag at the end of its list and leaves every other key unchanged. |
| NodeMarks.MarkedStep | visualSHARK/views.py:539-566 | One more mark is exactly one such append. |
| NodeMarks.MarkedGrows | visualSHARK/views.py:528-566 | Marks are append-only. Every key stays, and every list of the earlier response is a prefix of the later one. |
| NodeMarks.MarkedTags | visualSHARK/views.py:528-566 | A commit is a key iff it received a mark. Its list is its tags in the order they were appended. |
| NodeMarks.QueryMarksCount | visualSHARK/views.py:555-566 | A query adds its tag to a hash once per matching commit with that hash. |
| NodeMarks.SearchTagCount | visualSHARK/views.py:555-566 | `search` appears under a hash once per matching search query, so a commit matching both message and hash gets it twice. With no search text it does not appear. |
| NodeMarks.AppendMatches | visualSHARK/views.py:549-566 | One query loop appends exactly that query's marks. |
| NodeMarks.WantedStates | visualSHARK/views.py:533-537 | The build loop collects exactly the `travis_` tags of the requested states. |
| NodeMarks.MarkTravis | visualSHARK/views.py:530-541 | The Travis loop builds exactly the response of the Travis marks. |
| NodeMarks.AppendLabel | visualSHARK/views.py:544-553 | One label id with a field appends exactly the marks of its label, and the label pass over one more id succeeds with those marks added. |
| NodeMarks.MarkLabels | visualSHARK/views.py:543-553 | The label loop fails with the first unknown id, or appends exactly the label marks. |
| NodeMarks.MarkSearch | visualSHARK/views.py:555-566 | The search passes append the message matches, then the hash matches. |
| NodeMarks.MarkNodesView | visualSHARK/views.py:524-568 | The whole view computes exactly `MarkNodes`. |
| IssueConflicts.AllSameIff | visualSHARK/views.py:1029 | `len(set(labels)) == 1` holds iff there is at least one label and all labels are equal. |
| IssueConflicts.Skipped | visualSHARK/views.py:1029-1031 | The number of skips is the number of positions whose validation has all users agreeing. |
| IssueConflicts.AgreeingSnoc | visualSHARK/views.py:1029-1031 | One more validation adds its position to the agreeing ones exactly when its users agree. |
| IssueConflicts.Duplicates | visualSHARK/views.py:1033-1036 | The number of duplicates is the number of positions whose validation is disputed and whose issue has an earlier disputed validation. |
| IssueConflicts.RepeatedLast | visualSHARK/views.py:1033-1036 | The last validation is a duplicate exactly when it is disputed and its issue is already in `issue_ids`. |
| IssueConflicts.RepeatedSnoc | visualSHARK/views.py:1033-1036 | One more validation adds its position to the duplicates exactly when it is one. |
| IssueConflicts.DisputedDistinct | visualSHARK/views.py:1026-1036 | `issue_ids` has no duplicates. An issue is queued iff some validation of it has disagreeing labels. |
| IssueConflicts.CountsAddUp | visualSHARK/views.py:1022-1036 | The initial count minus the skipped validations minus the duplicates equals the number of queued issues. |
| IssueConflicts.ConflictQueue | visualSHARK/views.py:1022-1036 | The loop yields exactly the disputed issues. `max` is the initial count minus skipped minus duplicates, which equals the queue length, and the queue is duplicate-free. |
| IssueConflicts.Page | visualSHARK/views.py:1047 | At most ten issues are shown: the first ones of the queue, or all of them when there are at most ten. |
| IssueUrls.GithubBrowseUrl | visualSHARK/views.py:913-916 | The GitHub URL has `/repos/` replaced by `/` and `api.` removed. The result always ends with `/`, which is added only when missing. |
| IssueUrls.IssueBaseUrl | visualSHARK/views.py:911-916 | A Jira tracker gives the Apache Jira browse URL, checked first. Otherwise GitHub gives the rewritten URL. A URL naming neither gives no base URL, and every base URL ends with `/`. |
| IssueUrls.GithubWebUrlKept | visualSHARK/views.py:913-916 | A URL already in browse form is unchanged. |
| IssueUrls.CommitBaseUrlAsWritten | visualSHARK/views.py:920 | The commit URL as the view builds it ends with `/commit/` and is never longer than the repository URL plus `/commit/`. |
| IssueUrls.CommitBaseUrlAsWrittenOnCloneUrl | visualSHARK/views.py:920 | On an ordinary clone URL `<repo>.git`, where `<repo>` has no `.git`, the view gives `<repo>/commit/`, the same as the intended form. |
| IssueUrls.CommitBaseUrl | visualSHARK/views.py:920 | The intended commit URL removes only a trailing `.git` and ends with `/commit/`. |
| IssueUrls.CommitBaseUrlStripsSuffixOnly | visualSHARK/views.py:920 | A clone URL and the same URL without `.git` give the same commit URL, and nothing else is altered. |
| IssueUrls.CommitBaseUrlsAgree | visualSHARK/views.py:920 | Both forms agree on every URL without `.git`. |
| IssueUrls.CommitBaseUrlAsWrittenCutsInside | visualSHARK/views.py:920 | For a repository `<owner>.github.io`, the form as written cuts `.git` out of the name, so the two forms differ. |
| Permissions.CodenameIsAfterLastDot | visualSHARK/views.py:122 | The reported name is the text after the last `.`. It contains no `.` and the permission ends with it. It is the whole permission iff there is no `.` at all. |
| Permissions.CodenameOfQualified | visualSHARK/views.py:122 | `<app>.<codename>` is reported as `<codename>` when the codename has no `.`. |
| Permissions.PermissionNames | visualSHARK/views.py:122 | One name per permission. Each name contains no `.`, ends its permission and is preceded there by `.` when shorter. It is the whole permission exactly when the permission has no `.`. |

## Left out

- Commit-graph path exploration (`OntdekBaan`, imported at `visualSHARK/views.py:52` from `visualSHARK/util/helper.py`) lies outside the two modelled files and is not modelled.
- Articulation points are not modelled: a `networkx` call on a pickled graph, a foreign library.
- The six-month break rule of the path views is not modelled: date arithmetic with `relativedelta` and a lookup per node.
- All database queries, the `git` clone and reset, file reads, encoding detection, temporary directories and logging are not modelled. Their results are inputs to the model.
- The `Commit`, `File` and `FileAction` sanity lookups in `LineLabelSet.post` are not modelled. A missing object there is a server error.
- The user-profile reset and the order of the per-hunk database writes are not modelled. `Post` returns the writes instead of applying them.
- A failure part-way through the writes is not modelled, since it leaves some hunks written.
- `_commit_data`, the view that builds the per-line diff, is not modelled. Its output is the input `commits`.
- `IssueLabelSet.get`'s random sample and its `max` are not modelled, because the sample is random. So are the `linked`, `issue_type` and other-user filters, which are database queries.
- The commit links per issue (`issue_id_links`), the issue serializers and the `url` and `resolution` fields of each issue are not modelled. These are database reads and a fixed mapping table.
- IssueUrls.IssueBaseUrl: when neither `jira` nor `github` occurs in the URL, the view leaves `base_url` unbound. The model returns `None` instead of the later `NameError`, which occurs only if an issue is listed.
- The asynchronous store actions and the `rest.setToken` call inside LOGIN are not modelled: promises and a foreign HTTP client.
- BaseStore.Store.PushUserMessage: messages are modelled with the three fields the mutation reads. `success` is a boolean here, where JavaScript would store any value.
- NodeMarks.StateGroup: `list(set(states))` has no defined order in Python, so a group is modelled as a set.
- NodeMarks.TravisTags: `tj.state.upper()` is modelled as ASCII upper-casing. Unicode case mapping is not modelled.
- BaseStore.Store.SetUserMessages: the mutation stores the caller's array itself, so a later PUSH_USER_MESSAGE also changes that array in place. The model holds the messages as a value, so this aliasing is not modelled.
- NodeMarks.ContainsIgnoringCase: case-insensitive matching folds ASCII letters only. Unicode case folding is not modelled.
- NodeMarks.MarkNodes: the response is a map, so the key order of the Python dictionary is not modelled. The order within each list is.
- Permissions.PermissionNames: the permission set is a Python set, modelled as a sequence in the order the server enumerates it.
- LineLabels.DiffLine: line numbers are modelled by their `str()` rendering, the only form the view compares.
- LineLabels.Regroup: the regrouped dictionaries are maps, so their key order is not modelled.

## Findings

| source | as written | input that shows it | evidently intended | confidence | as-written member | corrected member |
|---|---|---|---|---|---|---|
| visualSHARK/views.py:920 | `vcs.url.replace('.git', '')` removes every occurrence of `.git`, also inside the host or repository name | a repository URL ending in `<owner>.github.io.git` gives `<owner>hub.io/commit/` | remove only the trailing `.git` of a clone URL | high (not executed) | IssueUrls.CommitBaseUrlAsWrittenCutsInside | IssueUrls.CommitBaseUrlStripsSuffixOnly |
