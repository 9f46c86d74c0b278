/** Submitting manual line labels (`LineLabelSet.post`): every changed line
    of every file touched by the commits that fix an issue must carry a
    label; when one does not, the submission is refused with one error per
    unlabelled line, otherwise the labels are regrouped per hunk, per user
    and per label and written to the hunks.

    The commits, their changed files and the per-line view of each file
    (`_commit_data`, which clones the repository and reads files) are
    inputs here; the database writes are the returned `writes`. */
module LineLabels {
  import opened Wrappers
  import opened Text
  import opened Grouping

  const KeySeparator: char := '_'
  /** The label the frontend shows before the user picks one. */
  const Placeholder := "label"
  /** The request type that looks lines up by their old/new numbers. */
  const OldNewMode := "old_new"
  /** The marker of a side of the diff on which a line does not exist. */
  const Dash := "-"

  /** One line of the change view of a file. `number`, `oldNumber` and
      `newNumber` are the values as rendered by `str()`. */
  datatype DiffLine = DiffLine(
    number: string, oldNumber: string, newNumber: string,
    hunkId: string, hunkLine: int, code: string)

  /** One changed file of a commit. */
  datatype Change = Change(filename: string, parentRevisionHash: string, lines: seq<DiffLine>)

  /** A bug-fixing commit and its changed files. */
  datatype CommitChanges = CommitChanges(revisionHash: string, changes: seq<Change>)

  /** A change flattened out of its commit: what a key is built from, and
      the lines. */
  datatype Item = Item(revisionHash: string, parentRevisionHash: string, fileName: string, lines: seq<DiffLine>)

  /** An accepted label for one line. */
  datatype LabeledLine = LabeledLine(lineLabel: string, hunkLine: int, code: string)

  /** An accepted label together with the hunk it belongs to. */
  datatype HunkEntry = HunkEntry(hunkId: string, line: LabeledLine)

  /** What checking one line gives: a label entry, or an error message. */
  datatype LineOutcome = Labeled(entry: HunkEntry) | Unlabeled(error: string)

  /** The three parts of a change key. */
  datatype KeyParts = KeyParts(revisionHash: string, parentRevisionHash: string, fileName: string)

  /** The labels accepted for one change, grouped by hunk id. */
  datatype ChangeLabels = ChangeLabels(key: string, hunks: map<string, seq<LabeledLine>>)

  /** The result of checking one change. */
  datatype ChangeCheck = ChangeCheck(hunks: map<string, seq<LabeledLine>>, errors: seq<string>)

  /** The result of checking the whole submission. */
  datatype Checked = Checked(changes: seq<ChangeLabels>, errors: seq<string>)

  /** hunk id -> user name -> label -> hunk line numbers. */
  type WriteChanges = map<string, map<string, map<string, seq<int>>>>

  /** How a submission ends. */
  datatype PostResult =
    | KeyError(key: string)          // a change key missing from the submitted labels
    | BadRequest(statusText: string) // HTTP 400, nothing written
    | Saved(changes: seq<ChangeLabels>, targets: seq<KeyParts>, writes: seq<WriteChanges>)

  /** The submitted labels: change key -> line number -> label. */
  type Submitted = map<string, map<string, string>>

  // ---------------------------------------------------------------------
  // Change keys

  /** The key under which the frontend submits the labels of a change. */
  function ChangeKey(revisionHash: string, parentRevisionHash: string, fileName: string): string
  {
    revisionHash + [KeySeparator] + parentRevisionHash + [KeySeparator] + fileName
  }

  function ItemKey(item: Item): string
  {
    ChangeKey(item.revisionHash, item.parentRevisionHash, item.fileName)
  }

  /** Splits a key back into its parts: the first two pieces between
      underscores and everything after the second underscore. `None` stands
      for the IndexError of a key without any underscore. */
  function ParseKey(key: string): Option<KeyParts>
  {
    var parts := Split(key, [KeySeparator]);
    if |parts| < 2 then None
    else Some(KeyParts(parts[0], parts[1], Join([KeySeparator], parts[2..])))
  }

  /** Parsing a key gives back its parts, even when the file name contains
      underscores, as long as neither hash does. */
  lemma KeyRoundTrip(revisionHash: string, parentRevisionHash: string, fileName: string)
    requires KeySeparator !in revisionHash && KeySeparator !in parentRevisionHash
    ensures ParseKey(ChangeKey(revisionHash, parentRevisionHash, fileName))
      == Some(KeyParts(revisionHash, parentRevisionHash, fileName))
  {
    var c := KeySeparator;
    var rest := parentRevisionHash + [c] + fileName;
    assert ChangeKey(revisionHash, parentRevisionHash, fileName) == revisionHash + [c] + rest;
    SplitAround(revisionHash, rest, c);
    SplitAround(parentRevisionHash, fileName, c);
    SplitNoSep(revisionHash, c);
    SplitNoSep(parentRevisionHash, c);
    var parts := [revisionHash] + ([parentRevisionHash] + Split(fileName, [c]));
    assert Split(ChangeKey(revisionHash, parentRevisionHash, fileName), [c]) == parts;
    assert parts[2..] == Split(fileName, [c]);
    JoinSplit(fileName, [c]);
  }

  /** Every key built by `ChangeKey` has at least two underscores, so its
      parse never fails. */
  lemma ParseKeySucceeds(revisionHash: string, parentRevisionHash: string, fileName: string)
    ensures ParseKey(ChangeKey(revisionHash, parentRevisionHash, fileName)).Some?
  {
    var c := KeySeparator;
    var rest := parentRevisionHash + [c] + fileName;
    assert ChangeKey(revisionHash, parentRevisionHash, fileName) == revisionHash + [c] + rest;
    SplitAround(revisionHash, rest, c);
  }

  /** An underscore inside the revision hash shifts the parts: what follows
      it is taken for the parent hash, and the parent hash becomes part of
      the file name. The round trip therefore needs hashes without
      underscores. */
  lemma UnderscoreInHashShiftsParts(a: string, b: string, parentRevisionHash: string, fileName: string)
    requires KeySeparator !in a && KeySeparator !in b && KeySeparator !in parentRevisionHash
    ensures ParseKey(ChangeKey(a + [KeySeparator] + b, parentRevisionHash, fileName))
      == Some(KeyParts(a, b, parentRevisionHash + [KeySeparator] + fileName))
  {
    var c := KeySeparator;
    var tail := parentRevisionHash + [c] + fileName;
    assert ChangeKey(a + [c] + b, parentRevisionHash, fileName) == ChangeKey(a, b, tail);
    KeyRoundTrip(a, b, tail);
  }

  // ---------------------------------------------------------------------
  // Which lines need a label, and under which number they are looked up

  /** A line needs a label when it exists on one side of the diff only. */
  predicate NeedsLabel(line: DiffLine)
  {
    line.oldNumber == Dash || line.newNumber == Dash
  }

  /** The number under which a line's label is looked up: `number`, or in
      old/new mode the old number, or the new one for an added line. */
  function LookupNumber(line: DiffLine, mode: string): (n: string)
    ensures mode != OldNewMode ==> n == line.number
    ensures mode == OldNewMode ==> n == line.oldNumber || n == line.newNumber
    ensures mode == OldNewMode && line.oldNumber != Dash ==> n == line.oldNumber
    ensures mode == OldNewMode ==> (n == Dash <==> line.oldNumber == Dash && line.newNumber == Dash)
  {
    if mode == OldNewMode then
      (if line.oldNumber == Dash then line.newNumber else line.oldNumber)
    else line.number
  }

  /** The lines that need a label, in order. */
  function NeedingLabels(lines: seq<DiffLine>): (r: seq<DiffLine>)
    ensures |r| <= |lines|
    ensures forall l :: l in r ==> l in lines && NeedsLabel(l)
    ensures forall i :: 0 <= i < |lines| && NeedsLabel(lines[i]) ==> lines[i] in r
    decreases |lines|
  {
    if lines == [] then []
    else
      var init := NeedingLabels(lines[..|lines| - 1]);
      var last := lines[|lines| - 1];
      assert forall i :: 0 <= i < |lines| - 1 ==> lines[..|lines| - 1][i] == lines[i];
      if NeedsLabel(last) then init + [last] else init
  }

  /** Selects the lines that need a label (the first loop over a change). */
  method SelectLinesNeedingLabels(lines: seq<DiffLine>) returns (needing: seq<DiffLine>)
    ensures needing == NeedingLabels(lines)
  {
    needing := [];
    var i := 0;
    while i < |lines|
      invariant 0 <= i <= |lines|
      invariant needing == NeedingLabels(lines[..i])
    {
      assert lines[..i + 1][..i] == lines[..i];
      if lines[i].oldNumber == Dash || lines[i].newNumber == Dash {
        needing := needing + [lines[i]];
      }
      i := i + 1;
    }
    assert lines[..i] == lines;
  }

  // ---------------------------------------------------------------------
  // Checking the submitted labels of one change

  /** The label of a line is present and is not the placeholder. */
  predicate HasValidLabel(line: DiffLine, table: map<string, string>, mode: string)
  {
    var n := LookupNumber(line, mode);
    n in table && table[n] != Placeholder
  }

  function ErrorMessage(lineNumber: string, key: string): string
  {
    "error, line " + lineNumber + " not found or wrong label in key " + key
  }

  /** What checking one line gives. */
  function Outcome(line: DiffLine, table: map<string, string>, mode: string, key: string): (o: LineOutcome)
    ensures o.Labeled? <==> HasValidLabel(line, table, mode)
    ensures o.Labeled? ==>
      && o.entry.hunkId == line.hunkId && o.entry.line.hunkLine == line.hunkLine
      && o.entry.line.code == line.code && o.entry.line.lineLabel == table[LookupNumber(line, mode)]
      && o.entry.line.lineLabel != Placeholder
    ensures o.Unlabeled? ==> o.error == ErrorMessage(LookupNumber(line, mode), key)
  {
    var n := LookupNumber(line, mode);
    if n in table && table[n] != Placeholder then
      Labeled(HunkEntry(line.hunkId, LabeledLine(table[n], line.hunkLine, line.code)))
    else Unlabeled(ErrorMessage(n, key))
  }

  /** The label entries of the lines, in order. */
  function Entries(lines: seq<DiffLine>, table: map<string, string>, mode: string, key: string): (es: seq<HunkEntry>)
    ensures forall e :: e in es ==> e.line.lineLabel != Placeholder
    decreases |lines|
  {
    if lines == [] then []
    else
      var o := Outcome(lines[|lines| - 1], table, mode, key);
      Entries(lines[..|lines| - 1], table, mode, key) + (if o.Labeled? then [o.entry] else [])
  }

  /** The error messages of the lines, in order. */
  function Errors(lines: seq<DiffLine>, table: map<string, string>, mode: string, key: string): seq<string>
    decreases |lines|
  {
    if lines == [] then []
    else
      var o := Outcome(lines[|lines| - 1], table, mode, key);
      Errors(lines[..|lines| - 1], table, mode, key) + (if o.Unlabeled? then [o.error] else [])
  }

  /** Every line gives exactly one outcome: an entry or an error. */
  lemma {:induction false} OneOutcomePerLine(lines: seq<DiffLine>, table: map<string, string>, mode: string, key: string)
    ensures |Entries(lines, table, mode, key)| + |Errors(lines, table, mode, key)| == |lines|
    decreases |lines|
  {
    if lines != [] {
      OneOutcomePerLine(lines[..|lines| - 1], table, mode, key);
    }
  }

  /** There is no error exactly when every line carries a valid label. */
  lemma {:induction false} NoErrorsIffAllLabeled(lines: seq<DiffLine>, table: map<string, string>, mode: string, key: string)
    ensures Errors(lines, table, mode, key) == []
      <==> forall i :: 0 <= i < |lines| ==> HasValidLabel(lines[i], table, mode)
    decreases |lines|
  {
    if lines != [] {
      var init := lines[..|lines| - 1];
      NoErrorsIffAllLabeled(init, table, mode, key);
      assert forall i :: 0 <= i < |init| ==> init[i] == lines[i];
    }
  }

  function EntryHunk(e: HunkEntry): string { e.hunkId }
  function EntryLine(e: HunkEntry): LabeledLine { e.line }

  /** The accepted labels of a change, grouped by hunk id. */
  function HunkLabels(entries: seq<HunkEntry>): map<string, seq<LabeledLine>>
  {
    Grouped(entries, EntryHunk, EntryLine)
  }

  /** Grouping by hunk keeps each entry under its own hunk id, in input
      order, and loses none. */
  lemma HunkLabelsKeepEntries(entries: seq<HunkEntry>, hunkId: string)
    ensures hunkId in HunkLabels(entries) <==> Select(entries, EntryHunk, EntryLine, hunkId) != []
    ensures hunkId in HunkLabels(entries) ==> HunkLabels(entries)[hunkId] == Select(entries, EntryHunk, EntryLine, hunkId)
    ensures forall k :: k in KeysInOrder(entries, EntryHunk) ==> k in HunkLabels(entries)
    ensures SumLengths(KeysInOrder(entries, EntryHunk), HunkLabels(entries)) == |entries|
  {
    GroupedIsSelect(entries, EntryHunk, EntryLine, hunkId);
    GroupedKeepsEveryItem(entries, EntryHunk, EntryLine);
  }

  /** Checking one change: a missing key is a KeyError as soon as one line
      needs a label; otherwise the grouped entries and the errors. */
  function CheckChange(item: Item, labels: Submitted, mode: string): Result<ChangeCheck, string>
  {
    var key := ItemKey(item);
    var needing := NeedingLabels(item.lines);
    if needing == [] then Success(ChangeCheck(map[], []))
    else if key !in labels then Failure(key)
    else Success(ChangeCheck(HunkLabels(Entries(needing, labels[key], mode, key)),
                             Errors(needing, labels[key], mode, key)))
  }

  /** One more line extends the entries and the errors by its outcome. */
  lemma OutcomeStep(lines: seq<DiffLine>, i: nat, table: map<string, string>, mode: string, key: string)
    requires i < |lines|
    ensures var o := Outcome(lines[i], table, mode, key);
      && Entries(lines[..i + 1], table, mode, key)
           == Entries(lines[..i], table, mode, key) + (if o.Labeled? then [o.entry] else [])
      && Errors(lines[..i + 1], table, mode, key)
           == Errors(lines[..i], table, mode, key) + (if o.Unlabeled? then [o.error] else [])
  {
    assert lines[..i + 1][..i] == lines[..i];
  }

  /** One more entry is appended to the list of its hunk. */
  lemma HunkLabelsStep(entries: seq<HunkEntry>, e: HunkEntry)
    ensures var g := HunkLabels(entries);
      HunkLabels(entries + [e]) == g[e.hunkId := (if e.hunkId in g then g[e.hunkId] else []) + [e.line]]
  {
    assert (entries + [e])[..|entries|] == entries;
  }

  /** The loops over the lines of one change. */
  method CheckChangeLines(item: Item, labels: Submitted, mode: string) returns (r: Result<ChangeCheck, string>)
    ensures r == CheckChange(item, labels, mode)
  {
    var key := ItemKey(item);
    var needing := SelectLinesNeedingLabels(item.lines);
    if needing == [] {
      return Success(ChangeCheck(map[], []));
    }
    if key !in labels {
      return Failure(key);
    }
    var labelLines, errors := CheckLines(needing, labels[key], mode, key);
    r := Success(ChangeCheck(labelLines, errors));
  }

  /** The number a line's label is submitted under, as the view picks it. */
  method LineNumberOf(line: DiffLine, mode: string) returns (lineNumber: string)
    ensures lineNumber == LookupNumber(line, mode)
  {
    lineNumber := line.number;
    if mode == OldNewMode {
      lineNumber := line.oldNumber;
      if lineNumber == Dash {
        lineNumber := line.newNumber;
      }
    }
  }

  /** The check of one line: its label entry, or the error naming its
      number and the change key. */
  method CheckLine(line: DiffLine, table: map<string, string>, mode: string, key: string) returns (o: LineOutcome)
    ensures o == Outcome(line, table, mode, key)
  {
    var lineNumber := LineNumberOf(line, mode);
    if lineNumber in table && table[lineNumber] != Placeholder {
      o := Labeled(HunkEntry(line.hunkId, LabeledLine(table[lineNumber], line.hunkLine, line.code)));
    } else {
      o := Unlabeled(ErrorMessage(lineNumber, key));
    }
  }

  /** `label_lines[hunk_id].append(line)`, creating the list first when the
      hunk has none yet. */
  method AppendLine(labelLines: map<string, seq<LabeledLine>>, hunkId: string, line: LabeledLine)
    returns (r: map<string, seq<LabeledLine>>)
    ensures r == labelLines[hunkId := (if hunkId in labelLines then labelLines[hunkId] else []) + [line]]
  {
    r := labelLines;
    if hunkId !in r {
      r := r[hunkId := []];
    }
    r := r[hunkId := r[hunkId] + [line]];
  }

  /** The check of the lines needing a label against the labels submitted
      for their change. */
  method CheckLines(needing: seq<DiffLine>, table: map<string, string>, mode: string, key: string)
    returns (labelLines: map<string, seq<LabeledLine>>, errors: seq<string>)
    ensures labelLines == HunkLabels(Entries(needing, table, mode, key))
    ensures errors == Errors(needing, table, mode, key)
  {
    ghost var entries: seq<HunkEntry> := [];
    labelLines := map[];
    errors := [];
    var i := 0;
    while i < |needing|
      invariant 0 <= i <= |needing|
      invariant entries == Entries(needing[..i], table, mode, key)
      invariant labelLines == HunkLabels(entries)
      invariant errors == Errors(needing[..i], table, mode, key)
    {
      var o := CheckLine(needing[i], table, mode, key);
      OutcomeStep(needing, i, table, mode, key);
      if o.Labeled? {
        HunkLabelsStep(entries, o.entry);
        labelLines := AppendLine(labelLines, o.entry.hunkId, o.entry.line);
        entries := entries + [o.entry];
      } else {
        errors := errors + [o.error];
      }
      i := i + 1;
    }
    assert needing[..i] == needing;
  }

  // ---------------------------------------------------------------------
  // Checking the whole submission

  function ItemOf(revisionHash: string, change: Change): Item
  {
    Item(revisionHash, change.parentRevisionHash, change.filename, change.lines)
  }

  /** The changes of one commit, flattened. */
  function ItemsOf(revisionHash: string, changes: seq<Change>): (items: seq<Item>)
    ensures |items| == |changes|
    decreases |changes|
  {
    if changes == [] then []
    else ItemsOf(revisionHash, changes[..|changes| - 1]) + [ItemOf(revisionHash, changes[|changes| - 1])]
  }

  /** The changes of all commits, flattened in order. */
  function Flatten(commits: seq<CommitChanges>): seq<Item>
    decreases |commits|
  {
    if commits == [] then []
    else
      var c := commits[|commits| - 1];
      Flatten(commits[..|commits| - 1]) + ItemsOf(c.revisionHash, c.changes)
  }

  /** Checks the changes in order and collects their labels and errors; the
      first KeyError ends the check. */
  function CheckAll(items: seq<Item>, labels: Submitted, mode: string): Result<Checked, string>
    decreases |items|
  {
    if items == [] then Success(Checked([], []))
    else
      match CheckAll(items[..|items| - 1], labels, mode)
      case Failure(k) => Failure(k)
      case Success(acc) =>
        var item := items[|items| - 1];
        match CheckChange(item, labels, mode)
        case Failure(k) => Failure(k)
        case Success(cc) =>
          Success(Checked(acc.changes + [ChangeLabels(ItemKey(item), cc.hunks)], acc.errors + cc.errors))
  }

  /** Every line that needs a label in the change has a valid one. */
  predicate FullyLabeled(item: Item, labels: Submitted, mode: string)
  {
    forall l :: l in NeedingLabels(item.lines) ==>
      ItemKey(item) in labels && HasValidLabel(l, labels[ItemKey(item)], mode)
  }

  /** A successful check has one entry per change, under the change's
      key. */
  lemma {:induction false} CheckAllKeys(items: seq<Item>, labels: Submitted, mode: string)
    requires CheckAll(items, labels, mode).Success?
    ensures |CheckAll(items, labels, mode).value.changes| == |items|
    ensures forall i :: 0 <= i < |items| ==> CheckAll(items, labels, mode).value.changes[i].key == ItemKey(items[i])
    decreases |items|
  {
    if items != [] {
      var init := items[..|items| - 1];
      CheckAllKeys(init, labels, mode);
      assert forall i :: 0 <= i < |init| ==> init[i] == items[i];
    }
  }

  /** Checking one more change after a successful prefix: its KeyError, or
      its labels and errors appended to those of the prefix. */
  lemma CheckAllStep(prefix: seq<Item>, item: Item, labels: Submitted, mode: string, acc: Checked)
    requires CheckAll(prefix, labels, mode) == Success(acc)
    ensures CheckChange(item, labels, mode).Failure? ==>
      CheckAll(prefix + [item], labels, mode) == Failure(CheckChange(item, labels, mode).error)
    ensures CheckChange(item, labels, mode).Success? ==>
      var cc := CheckChange(item, labels, mode).value;
      CheckAll(prefix + [item], labels, mode)
        == Success(Checked(acc.changes + [ChangeLabels(ItemKey(item), cc.hunks)], acc.errors + cc.errors))
  {
    assert (prefix + [item])[..|prefix|] == prefix;
  }

  /** A change's check has no error exactly when it is fully labelled. */
  lemma CheckChangeNoErrors(item: Item, labels: Submitted, mode: string)
    requires CheckChange(item, labels, mode).Success?
    ensures CheckChange(item, labels, mode).value.errors == [] <==> FullyLabeled(item, labels, mode)
  {
    var needing := NeedingLabels(item.lines);
    var key := ItemKey(item);
    if needing != [] {
      NoErrorsIffAllLabeled(needing, labels[key], mode, key);
      assert FullyLabeled(item, labels, mode) <==>
        forall i :: 0 <= i < |needing| ==> HasValidLabel(needing[i], labels[key], mode);
    }
  }

  /** A successful check has no error exactly when every change is fully
      labelled: the request is refused iff some line lacks a valid label. */
  lemma {:induction false} CheckAllNoErrors(items: seq<Item>, labels: Submitted, mode: string)
    requires CheckAll(items, labels, mode).Success?
    ensures CheckAll(items, labels, mode).value.errors == []
      <==> forall i :: 0 <= i < |items| ==> FullyLabeled(items[i], labels, mode)
    decreases |items|
  {
    if items != [] {
      var init := items[..|items| - 1];
      CheckAllNoErrors(init, labels, mode);
      CheckChangeNoErrors(items[|items| - 1], labels, mode);
      assert forall i :: 0 <= i < |init| ==> init[i] == items[i];
    }
  }

  lemma ItemsOfSnoc(revisionHash: string, changes: seq<Change>, j: nat)
    requires j < |changes|
    ensures ItemsOf(revisionHash, changes[..j + 1]) == ItemsOf(revisionHash, changes[..j]) + [ItemOf(revisionHash, changes[j])]
  {
    assert changes[..j + 1][..j] == changes[..j];
  }

  lemma {:induction false} ItemsOfSplit(revisionHash: string, changes: seq<Change>, j: nat)
    requires j <= |changes|
    ensures ItemsOf(revisionHash, changes)[..j] == ItemsOf(revisionHash, changes[..j])
    decreases |changes|
  {
    if j < |changes| {
      var init := changes[..|changes| - 1];
      ItemsOfSplit(revisionHash, init, j);
      assert init[..j] == changes[..j];
    } else {
      assert changes[..j] == changes;
    }
  }

  lemma {:induction false} FlattenAppend(a: seq<CommitChanges>, b: seq<CommitChanges>)
    ensures Flatten(a + b) == Flatten(a) + Flatten(b)
    decreases |b|
  {
    if b == [] {
      assert a + b == a;
    } else {
      var b' := b[..|b| - 1];
      var last := b[|b| - 1];
      FlattenAppend(a, b');
      assert (a + b)[..|a + b| - 1] == a + b';
      assert (a + b)[|a + b| - 1] == last;
      assert Flatten(a + b) == Flatten(a + b') + ItemsOf(last.revisionHash, last.changes);
      assert Flatten(b) == Flatten(b') + ItemsOf(last.revisionHash, last.changes);
    }
  }

  /** A KeyError on a prefix of the items is the result of the whole
      check. */
  lemma {:induction false} FailurePropagates(prefix: seq<Item>, rest: seq<Item>, labels: Submitted, mode: string, k: string)
    requires CheckAll(prefix, labels, mode) == Failure(k)
    ensures CheckAll(prefix + rest, labels, mode) == Failure(k)
    decreases |rest|
  {
    if rest == [] {
      assert prefix + rest == prefix;
    } else {
      var all := prefix + rest;
      FailurePropagates(prefix, rest[..|rest| - 1], labels, mode, k);
      assert all[..|all| - 1] == prefix + rest[..|rest| - 1];
    }
  }

  /** The items of the commits around commit `c`, in order. */
  lemma FlattenAround(before: seq<CommitChanges>, c: CommitChanges, after: seq<CommitChanges>)
    ensures Flatten(before + [c] + after) == Flatten(before) + ItemsOf(c.revisionHash, c.changes) + Flatten(after)
  {
    FlattenSnoc(before, c);
    FlattenAppend(before + [c], after);
  }

  /** One more commit adds its changes at the end. */
  lemma FlattenSnoc(commits: seq<CommitChanges>, c: CommitChanges)
    ensures Flatten(commits + [c]) == Flatten(commits) + ItemsOf(c.revisionHash, c.changes)
  {
    assert (commits + [c])[..|commits|] == commits;
  }

  /** A KeyError on items that end inside `middle` is the result of the
      whole check. */
  lemma FailureInside(head: seq<Item>, middle: seq<Item>, tail: seq<Item>, j: nat, labels: Submitted, mode: string, k: string)
    requires j <= |middle|
    requires CheckAll(head + middle[..j], labels, mode) == Failure(k)
    ensures CheckAll(head + middle + tail, labels, mode) == Failure(k)
  {
    assert head + middle + tail == (head + middle[..j]) + (middle[j..] + tail);
    FailurePropagates(head + middle[..j], middle[j..] + tail, labels, mode, k);
  }

  /** A KeyError on the first `j` changes of a commit is the result of
      checking all its changes. */
  lemma FailureInCommit(done: seq<Item>, revisionHash: string, changes: seq<Change>, j: nat,
                        labels: Submitted, mode: string, k: string)
    requires j <= |changes|
    requires CheckAll(done + ItemsOf(revisionHash, changes[..j]), labels, mode) == Failure(k)
    ensures CheckAll(done + ItemsOf(revisionHash, changes), labels, mode) == Failure(k)
  {
    var items := ItemsOf(revisionHash, changes);
    ItemsOfSplit(revisionHash, changes, j);
    FailureInside(done, items, [], j, labels, mode, k);
    assert done + items + [] == done + items;
  }

  /** A KeyError at change `j` of commit `i` is the result of the whole
      check. */
  lemma FailureSticks(commits: seq<CommitChanges>, i: nat, j: nat, labels: Submitted, mode: string, k: string)
    requires i < |commits| && j < |commits[i].changes|
    requires CheckAll(Flatten(commits[..i]) + ItemsOf(commits[i].revisionHash, commits[i].changes[..j + 1]), labels, mode) == Failure(k)
    ensures CheckAll(Flatten(commits), labels, mode) == Failure(k)
  {
    var c := commits[i];
    assert commits == commits[..i] + [c] + commits[i + 1..];
    FlattenAround(commits[..i], c, commits[i + 1..]);
    ItemsOfSplit(c.revisionHash, c.changes, j + 1);
    FailureInside(Flatten(commits[..i]), ItemsOf(c.revisionHash, c.changes), Flatten(commits[i + 1..]), j + 1, labels, mode, k);
  }

  /** One more change of the check: its KeyError ends the check, otherwise
      its key and hunk labels and its errors are appended. */
  method CheckNextChange(ghost seen: seq<Item>, item: Item, labels: Submitted, mode: string,
                         changes: seq<ChangeLabels>, errors: seq<string>) returns (r: Result<Checked, string>)
    requires CheckAll(seen, labels, mode) == Success(Checked(changes, errors))
    ensures r == CheckAll(seen + [item], labels, mode)
  {
    var cc := CheckChangeLines(item, labels, mode);
    CheckAllStep(seen, item, labels, mode, Checked(changes, errors));
    if cc.Failure? {
      return Failure(cc.error);
    }
    r := Success(Checked(changes + [ChangeLabels(ItemKey(item), cc.value.hunks)], errors + cc.value.errors));
  }

  /** The loop over the changes of one commit, continuing a check that has
      so far collected `changes0` and `errors0`. */
  method CheckCommit(ghost done: seq<Item>, c: CommitChanges, labels: Submitted, mode: string,
                     changes0: seq<ChangeLabels>, errors0: seq<string>) returns (r: Result<Checked, string>)
    requires CheckAll(done, labels, mode) == Success(Checked(changes0, errors0))
    ensures r == CheckAll(done + ItemsOf(c.revisionHash, c.changes), labels, mode)
  {
    var changes := changes0;
    var errors := errors0;
    ghost var seen := done;
    assert c.changes[..0] == [] && done + ItemsOf(c.revisionHash, []) == done;
    var j := 0;
    while j < |c.changes|
      invariant 0 <= j <= |c.changes|
      invariant seen == done + ItemsOf(c.revisionHash, c.changes[..j])
      invariant CheckAll(seen, labels, mode) == Success(Checked(changes, errors))
    {
      var item := ItemOf(c.revisionHash, c.changes[j]);
      ghost var before := ItemsOf(c.revisionHash, c.changes[..j]);
      ItemsOfSnoc(c.revisionHash, c.changes, j);
      assert done + before + [item] == done + (before + [item]);
      var next := CheckNextChange(seen, item, labels, mode, changes, errors);
      if next.Failure? {
        FailureInCommit(done, c.revisionHash, c.changes, j + 1, labels, mode, next.error);
        return next;
      }
      changes, errors := next.value.changes, next.value.errors;
      seen := seen + [item];
      j := j + 1;
    }
    assert c.changes[..j] == c.changes;
    r := Success(Checked(changes, errors));
  }

  /** A KeyError within the first `i + 1` commits is the result of the
      whole check. */
  lemma FailureAfterCommit(commits: seq<CommitChanges>, i: nat, labels: Submitted, mode: string, k: string)
    requires i < |commits|
    requires CheckAll(Flatten(commits[..i + 1]), labels, mode) == Failure(k)
    ensures CheckAll(Flatten(commits), labels, mode) == Failure(k)
  {
    var upTo := commits[..i + 1];
    assert upTo + commits[i + 1..] == commits;
    FlattenAppend(upTo, commits[i + 1..]);
    FailurePropagates(Flatten(upTo), Flatten(commits[i + 1..]), labels, mode, k);
  }

  /** The loops over commits and their changes (the first half of `post`). */
  method CheckSubmission(commits: seq<CommitChanges>, labels: Submitted, mode: string) returns (r: Result<Checked, string>)
    ensures r == CheckAll(Flatten(commits), labels, mode)
  {
    var changes: seq<ChangeLabels> := [];
    var errors: seq<string> := [];
    ghost var done: seq<Item> := [];
    var i := 0;
    while i < |commits|
      invariant 0 <= i <= |commits|
      invariant done == Flatten(commits[..i])
      invariant CheckAll(done, labels, mode) == Success(Checked(changes, errors))
    {
      var c := commits[i];
      assert commits[..i + 1] == commits[..i] + [c];
      FlattenSnoc(commits[..i], c);
      var cr := CheckCommit(done, c, labels, mode, changes, errors);
      if cr.Failure? {
        FailureAfterCommit(commits, i, labels, mode, cr.error);
        return cr;
      }
      changes := cr.value.changes;
      errors := cr.value.errors;
      done := done + ItemsOf(c.revisionHash, c.changes);
      i := i + 1;
    }
    assert commits[..i] == commits;
    r := Success(Checked(changes, errors));
  }

  // ---------------------------------------------------------------------
  // Regrouping per hunk, user and label

  function LineLabel(l: LabeledLine): string { l.lineLabel }
  function LineHunkLine(l: LabeledLine): int { l.hunkLine }

  /** label -> hunk line numbers of one hunk. */
  function ByLabel(lines: seq<LabeledLine>): map<string, seq<int>>
  {
    Grouped(lines, LineLabel, LineHunkLine)
  }

  /** What is written for the hunks of one change: each hunk's lines,
      grouped by label, under the submitting user. */
  function Regrouped(hunks: map<string, seq<LabeledLine>>, user: string): WriteChanges
  {
    map h | h in hunks :: map[user := ByLabel(hunks[h])]
  }

  /** Regrouping keeps every labelled line: it appears under its hunk, its
      user and its label, in input order, and the total is unchanged. */
  lemma RegroupKeepsEveryLine(hunks: map<string, seq<LabeledLine>>, user: string, hunkId: string, lineLabel: string)
    requires hunkId in hunks
    ensures hunkId in Regrouped(hunks, user) && user in Regrouped(hunks, user)[hunkId]
    ensures var w := Regrouped(hunks, user)[hunkId][user];
      && (lineLabel in w <==> Select(hunks[hunkId], LineLabel, LineHunkLine, lineLabel) != [])
      && (lineLabel in w ==> w[lineLabel] == Select(hunks[hunkId], LineLabel, LineHunkLine, lineLabel))
      && (forall k :: k in KeysInOrder(hunks[hunkId], LineLabel) ==> k in w)
      && SumLengths(KeysInOrder(hunks[hunkId], LineLabel), w) == |hunks[hunkId]|
  {
    GroupedIsSelect(hunks[hunkId], LineLabel, LineHunkLine, lineLabel);
    GroupedKeepsEveryItem(hunks[hunkId], LineLabel, LineHunkLine);
  }

  /** The regrouping loops of `post` for one change. */
  method Regroup(hunks: map<string, seq<LabeledLine>>, user: string) returns (w: WriteChanges)
    ensures w == Regrouped(hunks, user)
  {
    w := map[];
    var todo := hunks.Keys;
    while todo != {}
      invariant todo <= hunks.Keys
      invariant w.Keys == hunks.Keys - todo
      invariant forall h :: h in w ==> w[h] == map[user := ByLabel(hunks[h])]
      decreases todo
    {
      var h :| h in todo;
      var lines := hunks[h];
      var perLabel: map<string, seq<int>> := map[];
      var j := 0;
      while j < |lines|
        invariant 0 <= j <= |lines|
        invariant perLabel == ByLabel(lines[..j])
      {
        assert lines[..j + 1][..j] == lines[..j];
        var line := lines[j];
        if line.lineLabel !in perLabel {
          perLabel := perLabel[line.lineLabel := []];
        }
        perLabel := perLabel[line.lineLabel := perLabel[line.lineLabel] + [line.hunkLine]];
        j := j + 1;
      }
      assert lines[..j] == lines;
      w := w[h := map[user := perLabel]];
      todo := todo - {h};
    }
  }

  // ---------------------------------------------------------------------
  // The whole request

  /** The write for every checked change: the key split back into its
      parts and the hunks regrouped by line. */
  method PlanWrites(changes: seq<ChangeLabels>, user: string) returns (targets: seq<KeyParts>, writes: seq<WriteChanges>)
    requires forall i :: 0 <= i < |changes| ==> ParseKey(changes[i].key).Some?
    ensures |targets| == |writes| == |changes|
    ensures forall i :: 0 <= i < |changes| ==>
      Some(targets[i]) == ParseKey(changes[i].key) && writes[i] == Regrouped(changes[i].hunks, user)
  {
    targets, writes := [], [];
    var i := 0;
    while i < |changes|
      invariant 0 <= i <= |changes|
      invariant |targets| == |writes| == i
      invariant forall k :: 0 <= k < i ==>
        Some(targets[k]) == ParseKey(changes[k].key) && writes[k] == Regrouped(changes[k].hunks, user)
    {
      var parts := ParseKey(changes[i].key).value;
      var w := Regroup(changes[i].hunks, user);
      targets := targets + [parts];
      writes := writes + [w];
      i := i + 1;
    }
  }

  /** `LineLabelSet.post` after the issue's commits have been read: refuse
      with every error when a line lacks a label, otherwise regroup and
      write the labels of every change (and reset the user's open issue). */
  method Post(commits: seq<CommitChanges>, labels: Submitted, mode: string, user: string) returns (r: PostResult)
    ensures CheckAll(Flatten(commits), labels, mode).Failure? ==>
      r == KeyError(CheckAll(Flatten(commits), labels, mode).error)
    ensures CheckAll(Flatten(commits), labels, mode).Success? ==>
      var c := CheckAll(Flatten(commits), labels, mode).value;
      && (c.errors != [] ==> r == BadRequest(Join("\n", c.errors)))
      && (c.errors == [] ==>
            && r.Saved? && r.changes == c.changes
            && |r.targets| == |r.writes| == |c.changes|
            && forall i :: 0 <= i < |c.changes| ==>
                 && Some(r.targets[i]) == ParseKey(c.changes[i].key)
                 && r.writes[i] == Regrouped(c.changes[i].hunks, user))
  {
    var checked := CheckSubmission(commits, labels, mode);
    if checked.Failure? {
      return KeyError(checked.error);
    }
    var c := checked.value;
    if c.errors != [] {
      return BadRequest(Join("\n", c.errors));
    }
    ghost var items := Flatten(commits);
    CheckAllKeys(items, labels, mode);
    forall i | 0 <= i < |c.changes|
      ensures ParseKey(c.changes[i].key).Some?
    {
      ParseKeySucceeds(items[i].revisionHash, items[i].parentRevisionHash, items[i].fileName);
    }
    var targets, writes := PlanWrites(c.changes, user);
    r := Saved(c.changes, targets, writes);
  }
}
