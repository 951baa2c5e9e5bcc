/**
 * The `ag issue` command: how `list` filters and sorts, how `submit` builds the new issue
 * and how `update` changes a stored one, with the exit codes of each.
 */
module AgIssues {
  import opened Wrappers
  import opened Time
  import opened Json
  import opened Models
  import opened Text
  import opened Seqs
  import opened Storage
  import Cli

  // ---------------------------------------------------------------------------
  // list
  // ---------------------------------------------------------------------------

  /** What `list` ends in: the issues it prints, an exit code, or a `TypeError` out of the sort. */
  datatype ListOutcome = Listed(issues: seq<IssueRecord>) | ListExit(code: int) | SortRaised

  /** `--status` is matched exactly (no lower-casing); `None` also stands for "not given". */
  function StatusArg(arg: Option<string>): Option<Status> {
    if Given(arg) then ParseStatus(arg.value) else None
  }

  function PriorityArg(arg: Option<string>): Option<Priority> {
    if Given(arg) then ParsePriority(arg.value) else None
  }

  /** A given `--status` or `--priority` that names no value. */
  predicate InvalidArgs(status: Option<string>, priority: Option<string>) {
    (Given(status) && ParseStatus(status.value).None?) || (Given(priority) && ParsePriority(priority.value).None?)
  }

  predicate Shows(i: IssueRecord, status: Option<string>, priority: Option<string>, labelArg: Option<string>) {
    (StatusArg(status).Some? ==> i.status == StatusArg(status).value) &&
    (PriorityArg(priority).Some? ==> i.priority == PriorityArg(priority).value) &&
    (Given(labelArg) ==> labelArg.value in i.labels)
  }

  function Selected(issues: seq<IssueRecord>, status: Option<string>, priority: Option<string>, labelArg: Option<string>)
    : (r: seq<IssueRecord>)
    ensures forall x :: multiset(r)[x] == if Shows(x, status, priority, labelArg) then multiset(issues)[x] else 0
  {
    FilterCounts(issues, i => Shows(i, status, priority, labelArg));
    Filter(issues, i => Shows(i, status, priority, labelArg))
  }

  /** The position of a priority when its value string is sorted with `reverse=True`. */
  function PriorityRank(p: Priority): int {
    match p
    case Medium => 0
    case Low => 1
    case High => 2
    case Critical => 3
  }

  /** The rank is exactly the descending order of the value strings. */
  lemma PriorityRankIsValueOrder(p: Priority, q: Priority)
    ensures PriorityRank(p) < PriorityRank(q) <==> StrLess(PriorityValue(q), PriorityValue(p))
  {
    assert StrLess("critical", "high") && StrLess("high", "low") && StrLess("low", "medium");
    assert !StrLess("high", "critical") && !StrLess("low", "high") && !StrLess("medium", "low");
    assert StrLess("critical", "low") && StrLess("critical", "medium") && StrLess("high", "medium");
    assert !StrLess("low", "critical") && !StrLess("medium", "critical") && !StrLess("medium", "high");
    assert !StrLess("low", "low") && !StrLess("high", "high") && !StrLess("medium", "medium") && !StrLess("critical", "critical");
  }

  function PriorityKey(i: IssueRecord): int {
    PriorityRank(i.priority)
  }

  /** `updated_at` with `reverse=True`, for lists in which every issue has been updated. */
  function UpdatedKey(i: IssueRecord): int {
    0 - Ordinal(i.updatedAt.GetOr(MinTimestamp))
  }

  function SortKey(sort: Cli.SortOrder): IssueRecord -> int {
    match sort
    case ByPriority => PriorityKey
    case ByCreated => Cli.CreatedKey
    case ByUpdated => UpdatedKey
  }

  /**
   * Sorting by `updated_at` compares every element with another once there are two of
   * them, and comparing with `None` raises.
   */
  predicate UpdatedSortRaises(s: seq<IssueRecord>) {
    |s| >= 2 && exists k :: 0 <= k < |s| && s[k].updatedAt.None?
  }

  /**
   * `list`: exit code 1 for a status or priority that names no value; otherwise the
   * selected issues stably sorted, unless sorting by update time meets an issue never updated.
   */
  function List(issues: seq<IssueRecord>, status: Option<string>, priority: Option<string>, labelArg: Option<string>,
                sort: Cli.SortOrder): (r: ListOutcome)
    ensures r.ListExit? <==> InvalidArgs(status, priority)
    ensures r.ListExit? ==> r.code == 1
    ensures r.SortRaised? <==>
              !InvalidArgs(status, priority) && sort == Cli.ByUpdated && UpdatedSortRaises(Selected(issues, status, priority, labelArg))
    ensures r.Listed? ==> forall x :: multiset(r.issues)[x] == if Shows(x, status, priority, labelArg) then multiset(issues)[x] else 0
    ensures r.Listed? ==> SortedBy(r.issues, SortKey(sort))
    ensures r.Listed? ==> forall k :: WithKey(r.issues, SortKey(sort), k) == WithKey(Selected(issues, status, priority, labelArg), SortKey(sort), k)
  {
    if InvalidArgs(status, priority) then ListExit(1)
    else
      var selected := Selected(issues, status, priority, labelArg);
      if sort == Cli.ByUpdated && UpdatedSortRaises(selected) then SortRaised
      else Listed(SortBy(selected, SortKey(sort)))
  }

  /**
   * Any two of the issues have both been updated, and the earlier one in the list was
   * updated no earlier than the later one.
   */
  predicate NewestUpdatedFirst(shown: seq<IssueRecord>) {
    forall i, j :: 0 <= i < j < |shown| ==>
      shown[i].updatedAt.Some? && shown[j].updatedAt.Some? &&
      !Before(shown[i].updatedAt.value, shown[j].updatedAt.value)
  }

  /** The issues an update-time sort lists have all been updated, and are listed newest first. */
  lemma UpdatedNewestFirst(issues: seq<IssueRecord>, status: Option<string>, priority: Option<string>, labelArg: Option<string>,
                           shown: seq<IssueRecord>)
    requires List(issues, status, priority, labelArg, Cli.ByUpdated) == Listed(shown)
    ensures NewestUpdatedFirst(shown)
  {
    var selected := Selected(issues, status, priority, labelArg);
    ListedByUpdate(issues, status, priority, labelArg, shown);
    SortedNewestFirst(shown, selected);
  }

  /** What the outcome of an update-time sort says about the listed issues. */
  lemma ListedByUpdate(issues: seq<IssueRecord>, status: Option<string>, priority: Option<string>, labelArg: Option<string>,
                       shown: seq<IssueRecord>)
    requires List(issues, status, priority, labelArg, Cli.ByUpdated) == Listed(shown)
    ensures SortedBy(shown, UpdatedKey) && !UpdatedSortRaises(Selected(issues, status, priority, labelArg))
    ensures multiset(shown) == multiset(Selected(issues, status, priority, labelArg))
  {
    assert SortKey(Cli.ByUpdated) == UpdatedKey;
  }

  /** A permutation, sorted by update time, of issues that do not make the sort raise. */
  lemma SortedNewestFirst(shown: seq<IssueRecord>, selected: seq<IssueRecord>)
    requires SortedBy(shown, UpdatedKey) && multiset(shown) == multiset(selected) && !UpdatedSortRaises(selected)
    ensures NewestUpdatedFirst(shown)
  {
    assert |shown| == |selected| by {
      assert |shown| == |multiset(shown)| && |selected| == |multiset(selected)|;
    }
    forall k | 0 <= k < |shown| && |shown| >= 2 ensures shown[k].updatedAt.Some? {
      assert shown[k] in multiset(selected);
      var m :| 0 <= m < |selected| && selected[m] == shown[k];
    }
    forall i, j | 0 <= i < j < |shown| ensures !Before(shown[i].updatedAt.value, shown[j].updatedAt.value) {
      assert UpdatedKey(shown[i]) <= UpdatedKey(shown[j]);
      OrdinalOrder(shown[i].updatedAt.value, shown[j].updatedAt.value);
    }
  }

  /**
   * Wherever a medium issue stands, only medium issues stand before it; wherever a
   * critical issue stands, only critical issues stand after it.
   */
  predicate MediumFirstCriticalLast(shown: seq<IssueRecord>) {
    forall i, j :: 0 <= i < j < |shown| ==>
      (shown[j].priority == Medium ==> shown[i].priority == Medium) &&
      (shown[i].priority == Critical ==> shown[j].priority == Critical)
  }

  /** As written, `--sort priority` lists the medium issues first and the critical ones last. */
  lemma PriorityListAsWritten(issues: seq<IssueRecord>, status: Option<string>, priority: Option<string>,
                              labelArg: Option<string>, shown: seq<IssueRecord>)
    requires List(issues, status, priority, labelArg, Cli.ByPriority) == Listed(shown)
    ensures MediumFirstCriticalLast(shown)
  {
    assert SortKey(Cli.ByPriority) == PriorityKey;
    SortedMediumFirst(shown);
  }

  lemma SortedMediumFirst(shown: seq<IssueRecord>)
    requires SortedBy(shown, PriorityKey)
    ensures MediumFirstCriticalLast(shown)
  {
    forall i, j | 0 <= i < j < |shown|
      ensures shown[j].priority == Medium ==> shown[i].priority == Medium
      ensures shown[i].priority == Critical ==> shown[j].priority == Critical
    {
      assert PriorityKey(shown[i]) <= PriorityKey(shown[j]);
    }
  }

  /**
   * With the order the comment names (the other command line's table), the selected issues
   * come out critical first and low last.
   */
  lemma IntendedPriorityList(issues: seq<IssueRecord>, status: Option<string>, priority: Option<string>,
                             labelArg: Option<string>)
    ensures var shown := SortBy(Selected(issues, status, priority, labelArg), Cli.PriorityKey);
            forall i, j :: 0 <= i < j < |shown| && shown[j].priority == Critical ==> shown[i].priority == Critical
    ensures var shown := SortBy(Selected(issues, status, priority, labelArg), Cli.PriorityKey);
            forall i, j :: 0 <= i < j < |shown| && shown[i].priority == Low ==> shown[j].priority == Low
  {
    Cli.PriorityOrder(SortBy(Selected(issues, status, priority, labelArg), Cli.PriorityKey));
  }

  /**
   * As written, `--sort priority` lists medium, then low, then high, then critical: three
   * issues stored low, critical, medium come out medium, low, critical.
   */
  lemma PrioritySortAsWritten(a: IssueRecord, b: IssueRecord, c: IssueRecord)
    requires a.priority == Low && b.priority == Critical && c.priority == Medium
    ensures List([a, b, c], None, None, None, Cli.ByPriority) == Listed([c, a, b])
  {
    assert PriorityKey(c) < PriorityKey(a) < PriorityKey(b);
    SortThreeRotated(a, b, c, PriorityKey);
    ListUnfiltered([a, b, c], Cli.ByPriority);
  }

  /** Without filters and sorted by priority or creation time, `list` shows all issues sorted. */
  lemma ListUnfiltered(issues: seq<IssueRecord>, sort: Cli.SortOrder)
    requires sort != Cli.ByUpdated
    ensures List(issues, None, None, None, sort) == Listed(SortBy(issues, SortKey(sort)))
  {
    SelectedAll(issues);
  }

  /** Without filters every issue is selected, in stored order. */
  lemma SelectedAll(issues: seq<IssueRecord>)
    ensures Selected(issues, None, None, None) == issues
  {
    FilterAll(issues, i => Shows(i, None, None, None));
  }

  /**
   * The order the comment of `--sort priority` names, critical to low, is the order of the
   * other command line's table: the same three issues come out critical, medium, low.
   */
  lemma IntendedPrioritySort(a: IssueRecord, b: IssueRecord, c: IssueRecord)
    requires a.priority == Low && b.priority == Critical && c.priority == Medium
    ensures SortBy(Selected([a, b, c], None, None, None), Cli.PriorityKey) == [b, c, a]
  {
    assert Cli.PriorityKey(b) < Cli.PriorityKey(c) < Cli.PriorityKey(a);
    SortThreeFirstLast(a, b, c, Cli.PriorityKey);
    SelectedAll([a, b, c]);
  }

  // ---------------------------------------------------------------------------
  // submit
  // ---------------------------------------------------------------------------

  /** What a command ends in: its exit code, or the decoding error that interrupted it. */
  datatype Outcome = Exit(code: int) | Raised(error: DecodeError)

  /**
   * `[label.strip() for label in labels.split(",") if label.strip()]`: the labels the
   * other command line would store, without the empty ones.
   */
  function SubmitLabels(arg: Option<string>): (labels: seq<string>)
    ensures forall k :: 0 <= k < |labels| ==> labels[k] != ""
    ensures forall x :: x in labels <==> x in Cli.SubmitLabels(arg) && x != ""
    ensures labels == Filter(Cli.SubmitLabels(arg), NonEmpty)
  {
    var stripped := if Given(arg) then StripAll(Split(arg.value, ',')) else [];
    FilterCounts(stripped, NonEmpty);
    Filter(stripped, NonEmpty)
  }

  /** The condition `if label.strip()` puts on a stripped label. */
  predicate NonEmpty(tag: string) {
    tag != ""
  }

  /** The issue `submit` creates. */
  function Submitted(newId: string, projectId: string, title: string, description: Option<string>, priority: Priority,
                     labels: Option<string>, user: Option<string>, now: Timestamp): (r: IssueRecord)
    ensures r.status == Open && r.assignee.None? && r.updatedAt.None? && r.comments == []
    ensures r.description == if Given(description) then description.value else "No description provided"
    ensures r.author == if user.Some? then user.value else "unknown"
    ensures r.labels == SubmitLabels(labels) && r.id == newId && r.projectId == projectId && r.title == title
    ensures r.priority == priority && r.createdAt == now
  {
    IssueRecord(newId, projectId, title, if Given(description) then description.value else "No description provided",
                Open, priority, user.GetOr("unknown"), None, now, None, [], SubmitLabels(labels))
  }

  /**
   * `submit`: exit code 1 without a title or with a priority that names no value, and
   * nothing is saved; otherwise the new issue is saved into its project.
   */
  method Submit(store: IssueStorage, projectId: string, title: Option<string>, description: Option<string>,
                priority: Option<string>, labels: Option<string>, user: Option<string>, newId: string, now: Timestamp)
    returns (out: Outcome)
    modifies store
    ensures !Given(title) || (Given(priority) && PriorityArg(priority).None?) ==> out == Exit(1) && store.files == old(store.files)
    ensures Given(title) && !(Given(priority) && PriorityArg(priority).None?) ==>
              var r := Submitted(newId, projectId, title.value, description, PriorityArg(priority).GetOr(Medium), labels, user, now);
              var before := old(store.GetIssues(projectId));
              (before.Err? ==> out == Raised(before.error) && store.files == old(store.files)) &&
              (before.Ok? ==> out == Exit(0) && store.files == old(store.files)[projectId := Stored(EncodeIssues(Upsert(before.value, r)))])
  {
    if !Given(title) {
      return Exit(1);
    }
    var level := Medium;
    if Given(priority) {
      var parsed := ParsePriority(priority.value);
      if parsed.None? {
        return Exit(1);
      }
      level := parsed.value;
    }
    assert level == PriorityArg(priority).GetOr(Medium);
    out := CreateAndSave(store, projectId, title.value, description, level, labels, user, newId, now);
  }

  /** The body of `submit` once its arguments are valid: the new issue is created, then saved. */
  method CreateAndSave(store: IssueStorage, projectId: string, title: string, description: Option<string>,
                       level: Priority, labels: Option<string>, user: Option<string>, newId: string, now: Timestamp)
    returns (out: Outcome)
    modifies store
    ensures var r := Submitted(newId, projectId, title, description, level, labels, user, now);
            var before := old(store.GetIssues(projectId));
            (before.Err? ==> out == Raised(before.error) && store.files == old(store.files)) &&
            (before.Ok? ==> out == Exit(0) && store.files == old(store.files)[projectId := Stored(EncodeIssues(Upsert(before.value, r)))])
  {
    var desc := if Given(description) then description.value else "No description provided";
    var issue := new Issue.Create(newId, projectId, title, desc, user.GetOr("unknown"), now,
                                  level, Some(SubmitLabels(labels)));
    assert issue.Record() == Submitted(newId, projectId, title, description, level, labels, user, now);
    assert store.files == old(store.files);
    out := Save(store, issue);
  }

  /** `save_issue` at the end of a command: exit code 0, or the error it raised. */
  method Save(store: IssueStorage, issue: Issue) returns (out: Outcome)
    modifies store
    ensures var before := old(store.GetIssues(issue.projectId));
            (before.Err? ==> out == Raised(before.error) && store.files == old(store.files)) &&
            (before.Ok? ==> out == Exit(0) && store.files == old(store.files)[issue.projectId := Stored(EncodeIssues(Upsert(before.value, issue.Record())))])
  {
    var saved := store.SaveIssue(issue);
    out := if saved.Err? then Raised(saved.error) else Exit(0);
  }

  // ---------------------------------------------------------------------------
  // update
  // ---------------------------------------------------------------------------

  /**
   * The issue after `update`, with the status and priority already parsed. `updated_at`
   * moves to `now` exactly when a field is set or a new label added.
   */
  function Updated(r: IssueRecord, status: Option<Status>, priority: Option<Priority>, assignee: Option<string>,
                   addLabel: Option<string>, now: Timestamp): (u: IssueRecord)
    ensures u.updatedAt ==
              if status.Some? || priority.Some? || Given(assignee) || (Given(addLabel) && addLabel.value !in r.labels)
              then Some(now) else r.updatedAt
  {
    var r1 := if status.Some? then r.(status := status.value, updatedAt := Some(now)) else r;
    var r2 := if priority.Some? then r1.(priority := priority.value, updatedAt := Some(now)) else r1;
    var r3 := if Given(assignee) then r2.(assignee := Some(assignee.value), updatedAt := Some(now)) else r2;
    if Given(addLabel) then WithLabel(r3, addLabel.value, now) else r3
  }

  /**
   * `update` changes only what it is given: the identity, text, author, creation time and
   * comments stay; labels stay duplicate-free; with nothing given, nothing changes.
   */
  lemma UpdatedChangesOnlyGiven(r: IssueRecord, status: Option<Status>, priority: Option<Priority>,
                                assignee: Option<string>, addLabel: Option<string>, now: Timestamp)
    ensures var u := Updated(r, status, priority, assignee, addLabel, now);
            u.id == r.id && u.projectId == r.projectId && u.title == r.title && u.description == r.description &&
            u.author == r.author && u.createdAt == r.createdAt && u.comments == r.comments
    ensures var u := Updated(r, status, priority, assignee, addLabel, now);
            u.status == status.GetOr(r.status) && u.priority == priority.GetOr(r.priority) &&
            u.assignee == (if Given(assignee) then assignee else r.assignee)
    ensures var u := Updated(r, status, priority, assignee, addLabel, now);
            Seqs.NoDuplicates(r.labels) ==> Seqs.NoDuplicates(u.labels)
    ensures var u := Updated(r, status, priority, assignee, addLabel, now);
            (status.Some? || priority.Some? || Given(assignee)) ==> u.updatedAt == Some(now)
    ensures var u := Updated(r, status, priority, assignee, addLabel, now);
            !Given(addLabel) ==> u.labels == r.labels
    ensures var u := Updated(r, status, priority, assignee, addLabel, now);
            Given(addLabel) ==> addLabel.value in u.labels && r.labels <= u.labels &&
                                u.labels == WithLabel(r, addLabel.value, now).labels
    ensures var u := Updated(r, status, priority, assignee, addLabel, now);
            Given(addLabel) && addLabel.value !in r.labels ==> u.updatedAt == Some(now)
    ensures status.None? && priority.None? && !Given(assignee) && !Given(addLabel) ==>
              Updated(r, status, priority, assignee, addLabel, now) == r
  {
    var r1 := if status.Some? then r.(status := status.value, updatedAt := Some(now)) else r;
    var r2 := if priority.Some? then r1.(priority := priority.value, updatedAt := Some(now)) else r1;
    var r3 := if Given(assignee) then r2.(assignee := Some(assignee.value), updatedAt := Some(now)) else r2;
    if Given(addLabel) && Seqs.NoDuplicates(r.labels) {
      AddLabelKeepsLabelsUnique(r3, addLabel.value, now);
    }
  }

  /**
   * `update`: exit code 1 when the issue is not found, or when a given status or priority
   * names no value; in both cases nothing is saved, whatever was changed in memory before.
   * Otherwise the changed issue is saved into the project its record names.
   */
  method Update(store: IssueStorage, projectId: string, issueId: string, status: Option<string>,
                priority: Option<string>, assignee: Option<string>, addLabel: Option<string>, now: Timestamp)
    returns (out: Outcome)
    modifies store
    ensures old(store.GetIssue(projectId, issueId)).Err? ==>
              out == Raised(old(store.GetIssue(projectId, issueId)).error) && store.files == old(store.files)
    ensures old(store.GetIssue(projectId, issueId)) == Ok(None) ==> out == Exit(1) && store.files == old(store.files)
    ensures old(store.GetIssue(projectId, issueId)).Ok? && InvalidArgs(status, priority) ==>
              out == Exit(1) && store.files == old(store.files)
    ensures old(store.GetIssue(projectId, issueId)).Ok? && old(store.GetIssue(projectId, issueId)).value.Some? &&
            !InvalidArgs(status, priority) ==>
              var u := Updated(old(store.GetIssue(projectId, issueId)).value.value, StatusArg(status), PriorityArg(priority),
                               assignee, addLabel, now);
              var before := old(store.GetIssues(u.projectId));
              (before.Err? ==> out == Raised(before.error) && store.files == old(store.files)) &&
              (before.Ok? ==> out == Exit(0) && store.files == old(store.files)[u.projectId := Stored(EncodeIssues(Upsert(before.value, u)))])
  {
    var found := store.GetIssue(projectId, issueId);
    if found.Err? {
      return Raised(found.error);
    }
    if found.value.None? {
      return Exit(1);
    }
    var st := None;
    if Given(status) {
      st := ParseStatus(status.value);
      if st.None? {
        return Exit(1);
      }
    }
    var pr := None;
    if Given(priority) {
      pr := ParsePriority(priority.value);
      if pr.None? {
        return Exit(1);
      }
    }
    assert st == StatusArg(status) && pr == PriorityArg(priority);
    out := ApplyAndSave(store, found.value.value, st, pr, assignee, addLabel, now);
  }

  /**
   * The body of `update` once the issue is found and its arguments are valid: the mutators
   * in their order on a fresh issue object, then `save_issue`.
   */
  method ApplyAndSave(store: IssueStorage, r: IssueRecord, status: Option<Status>, priority: Option<Priority>,
                      assignee: Option<string>, addLabel: Option<string>, now: Timestamp)
    returns (out: Outcome)
    modifies store
    ensures var u := Updated(r, status, priority, assignee, addLabel, now);
            var before := old(store.GetIssues(u.projectId));
            (before.Err? ==> out == Raised(before.error) && store.files == old(store.files)) &&
            (before.Ok? ==> out == Exit(0) && store.files == old(store.files)[u.projectId := Stored(EncodeIssues(Upsert(before.value, u)))])
  {
    var issue := Apply(r, status, priority, assignee, addLabel, now);
    out := Save(store, issue);
  }

  /** The mutators of `update`, in their order, on a fresh issue object. */
  method Apply(r: IssueRecord, status: Option<Status>, priority: Option<Priority>,
               assignee: Option<string>, addLabel: Option<string>, now: Timestamp)
    returns (issue: Issue)
    ensures fresh(issue) && issue.Record() == Updated(r, status, priority, assignee, addLabel, now)
  {
    issue := new Issue.FromRecord(r);
    if status.Some? {
      issue.UpdateStatus(status.value, now);
    }
    if priority.Some? {
      issue.UpdatePriority(priority.value, now);
    }
    if Given(assignee) {
      issue.Assign(assignee.value, now);
    }
    if Given(addLabel) {
      issue.AddLabel(addLabel.value, now);
    }
  }
}
