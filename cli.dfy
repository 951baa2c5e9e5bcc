/**
 * The `issues` command line: how `submit` parses its labels, and how `list` filters and
 * sorts the issues `get_issues` returned.
 */
module Cli {
  import opened Wrappers
  import opened Time
  import opened Models
  import opened Text
  import opened Seqs

  // ---------------------------------------------------------------------------
  // submit --labels
  // ---------------------------------------------------------------------------

  /**
   * `[label.strip() for label in labels.split(",")]` when `--labels` is given: one label per
   * comma-separated piece, stripped, empty ones kept.
   */
  function SubmitLabels(arg: Option<string>): (labels: seq<string>)
    ensures !Given(arg) ==> labels == []
    ensures Given(arg) ==> |labels| == multiset(arg.value)[','] + 1
    ensures Given(arg) ==> forall k :: 0 <= k < |labels| ==> ',' !in labels[k] && labels[k] == Strip(Split(arg.value, ',')[k])
  {
    if Given(arg) then StripAll(Split(arg.value, ',')) else []
  }

  // ---------------------------------------------------------------------------
  // list --status --priority --label --sort
  // ---------------------------------------------------------------------------

  datatype SortOrder = ByPriority | ByCreated | ByUpdated

  /** `IssueStatus(status.lower())` when `--status` is given; a value that is no status filters nothing. */
  function StatusFilter(arg: Option<string>): Option<Status> {
    if Given(arg) then ParseStatus(Lower(arg.value)) else None
  }

  function PriorityFilter(arg: Option<string>): Option<Priority> {
    if Given(arg) then ParsePriority(Lower(arg.value)) else None
  }

  /** Whether an issue passes the three filters of `list`. */
  predicate Shows(i: IssueRecord, status: Option<string>, priority: Option<string>, labelArg: Option<string>) {
    (StatusFilter(status).Some? ==> i.status == StatusFilter(status).value) &&
    (PriorityFilter(priority).Some? ==> i.priority == PriorityFilter(priority).value) &&
    (Given(labelArg) ==> labelArg.value in i.labels)
  }

  /**
   * The three successive comprehensions of `list`, as one filter by all three conditions:
   * exactly the issues that pass, each as often as stored, in stored order.
   */
  function Selected(issues: seq<IssueRecord>, status: Option<string>, priority: Option<string>, labelArg: Option<string>)
    : (r: seq<IssueRecord>)
    ensures forall x :: multiset(r)[x] == if Shows(x, status, priority, labelArg) then multiset(issues)[x] else 0
  {
    FilterCounts(issues, i => Shows(i, status, priority, labelArg));
    Filter(issues, i => Shows(i, status, priority, labelArg))
  }

  /** The table of `--sort priority`: critical, high, medium, low. */
  function PriorityRank(p: Priority): int {
    match p
    case Critical => 0
    case High => 1
    case Medium => 2
    case Low => 3
  }

  function PriorityKey(i: IssueRecord): int {
    PriorityRank(i.priority)
  }

  /** `created_at` with `reverse=True`: a larger time stamp sorts first. */
  function CreatedKey(i: IssueRecord): int {
    0 - Ordinal(i.createdAt)
  }

  /**
   * The key `(updated_at is None, updated_at or datetime.min)` with `reverse=True`: the
   * pair is ordered by its first component, then by the time stamp.
   */
  function UpdatedKey(i: IssueRecord): int {
    if i.updatedAt.None? then 0 - (OrdinalLimit + Ordinal(MinTimestamp))
    else 0 - Ordinal(i.updatedAt.value)
  }

  function SortKey(sort: SortOrder): IssueRecord -> int {
    match sort
    case ByPriority => PriorityKey
    case ByCreated => CreatedKey
    case ByUpdated => UpdatedKey
  }

  /**
   * The issues `list` shows: the selected ones, stably sorted by the chosen key, so issues
   * with equal keys keep their stored order.
   */
  function List(issues: seq<IssueRecord>, status: Option<string>, priority: Option<string>, labelArg: Option<string>,
                sort: SortOrder): (shown: seq<IssueRecord>)
    ensures forall x :: multiset(shown)[x] == if Shows(x, status, priority, labelArg) then multiset(issues)[x] else 0
    ensures SortedBy(shown, SortKey(sort))
    ensures forall k :: WithKey(shown, SortKey(sort), k) == WithKey(Selected(issues, status, priority, labelArg), SortKey(sort), k)
  {
    SortBy(Selected(issues, status, priority, labelArg), SortKey(sort))
  }

  /** The filters ignore case: a value and its lower-case form select the same issues. */
  lemma FiltersIgnoreCase(i: IssueRecord, status: string, priority: string, labelArg: Option<string>)
    ensures Shows(i, Some(status), Some(priority), labelArg) == Shows(i, Some(Lower(status)), Some(Lower(priority)), labelArg)
  {
    LowerIdempotent(status);
    LowerIdempotent(priority);
  }

  /** `--sort priority` lists critical before high before medium before low. */
  lemma PriorityListOrder(issues: seq<IssueRecord>, status: Option<string>, priority: Option<string>, labelArg: Option<string>)
    ensures var shown := List(issues, status, priority, labelArg, ByPriority);
            forall i, j :: 0 <= i < j < |shown| && shown[j].priority == Critical ==> shown[i].priority == Critical
    ensures var shown := List(issues, status, priority, labelArg, ByPriority);
            forall i, j :: 0 <= i < j < |shown| && shown[i].priority == Low ==> shown[j].priority == Low
  {
    PriorityOrder(List(issues, status, priority, labelArg, ByPriority));
  }

  lemma PriorityOrder(shown: seq<IssueRecord>)
    requires SortedBy(shown, PriorityKey)
    ensures forall i, j :: 0 <= i < j < |shown| && shown[j].priority == Critical ==> shown[i].priority == Critical
    ensures forall i, j :: 0 <= i < j < |shown| && shown[i].priority == Low ==> shown[j].priority == Low
  {
    forall i, j | 0 <= i < j < |shown|
      ensures shown[j].priority == Critical ==> shown[i].priority == Critical
      ensures shown[i].priority == Low ==> shown[j].priority == Low
    {
      assert PriorityKey(shown[i]) <= PriorityKey(shown[j]);
    }
  }

  /** `--sort created` lists the newest first. */
  lemma CreatedNewestFirst(issues: seq<IssueRecord>, status: Option<string>, priority: Option<string>, labelArg: Option<string>)
    ensures var shown := List(issues, status, priority, labelArg, ByCreated);
            forall i, j :: 0 <= i < j < |shown| ==> !Before(shown[i].createdAt, shown[j].createdAt)
  {
    var shown := List(issues, status, priority, labelArg, ByCreated);
    forall i, j | 0 <= i < j < |shown| ensures !Before(shown[i].createdAt, shown[j].createdAt) {
      assert CreatedKey(shown[i]) <= CreatedKey(shown[j]);
      OrdinalOrder(shown[i].createdAt, shown[j].createdAt);
    }
  }

  /**
   * `--sort updated` as written: every issue never updated is listed before every issue
   * that was, and the updated ones newest first.
   */
  lemma UpdatedUnsetFirst(issues: seq<IssueRecord>, status: Option<string>, priority: Option<string>, labelArg: Option<string>)
    ensures var shown := List(issues, status, priority, labelArg, ByUpdated);
            forall i, j :: 0 <= i < j < |shown| && shown[i].updatedAt.Some? ==> shown[j].updatedAt.Some?
    ensures var shown := List(issues, status, priority, labelArg, ByUpdated);
            forall i, j :: 0 <= i < j < |shown| && shown[i].updatedAt.Some? && shown[j].updatedAt.Some? ==>
              !Before(shown[i].updatedAt.value, shown[j].updatedAt.value)
  {
    var shown := List(issues, status, priority, labelArg, ByUpdated);
    forall i, j | 0 <= i < j < |shown| && shown[i].updatedAt.Some?
      ensures shown[j].updatedAt.Some?
      ensures shown[j].updatedAt.Some? ==> !Before(shown[i].updatedAt.value, shown[j].updatedAt.value)
    {
      assert UpdatedKey(shown[i]) <= UpdatedKey(shown[j]);
      if shown[j].updatedAt.Some? {
        OrdinalOrder(shown[i].updatedAt.value, shown[j].updatedAt.value);
      }
    }
  }

  /** Two issues, the first updated and the second not: `--sort updated` lists the second first. */
  lemma UpdatedListsUnsetFirst(a: IssueRecord, b: IssueRecord)
    requires a.updatedAt.Some? && b.updatedAt.None?
    ensures List([a, b], None, None, None, ByUpdated) == [b, a]
  {
    assert UpdatedKey(b) < UpdatedKey(a);
    ListSwapsTwo(a, b, ByUpdated);
  }

  /** Two issues whose keys are in the opposite order are listed swapped. */
  lemma ListSwapsTwo(a: IssueRecord, b: IssueRecord, sort: SortOrder)
    requires SortKey(sort)(b) < SortKey(sort)(a)
    ensures List([a, b], None, None, None, sort) == [b, a]
  {
    SortTwo(a, b, SortKey(sort));
    ListUnfiltered([a, b], sort);
  }

  /** Without filters, `list` shows all issues sorted by the chosen key. */
  lemma ListUnfiltered(issues: seq<IssueRecord>, sort: SortOrder)
    ensures List(issues, None, None, None, sort) == SortBy(issues, SortKey(sort))
  {
    SelectedAll(issues);
  }

  /** Without filters every issue is selected, in stored order. */
  lemma SelectedAll(issues: seq<IssueRecord>)
    ensures Selected(issues, None, None, None) == issues
  {
    FilterAll(issues, i => Shows(i, None, None, None));
  }

  /**
   * The key the comment of `--sort updated` describes: `(updated_at is not None, ...)` with
   * `reverse=True`, so that issues never updated come last.
   */
  function IntendedUpdatedKey(i: IssueRecord): int {
    if i.updatedAt.Some? then 0 - (OrdinalLimit + Ordinal(i.updatedAt.value))
    else 0 - Ordinal(MinTimestamp)
  }

  /** With the intended key the updated issues come first, newest first, and the others last. */
  lemma IntendedUpdatedUnsetLast(issues: seq<IssueRecord>, status: Option<string>, priority: Option<string>, labelArg: Option<string>)
    ensures var shown := SortBy(Selected(issues, status, priority, labelArg), IntendedUpdatedKey);
            forall i, j :: 0 <= i < j < |shown| && shown[i].updatedAt.None? ==> shown[j].updatedAt.None?
    ensures var shown := SortBy(Selected(issues, status, priority, labelArg), IntendedUpdatedKey);
            forall i, j :: 0 <= i < j < |shown| && shown[i].updatedAt.Some? && shown[j].updatedAt.Some? ==>
              !Before(shown[i].updatedAt.value, shown[j].updatedAt.value)
  {
    var shown := SortBy(Selected(issues, status, priority, labelArg), IntendedUpdatedKey);
    forall i, j | 0 <= i < j < |shown| && (shown[i].updatedAt.None? || shown[j].updatedAt.Some?)
      ensures shown[i].updatedAt.None? ==> shown[j].updatedAt.None?
      ensures shown[i].updatedAt.Some? && shown[j].updatedAt.Some? ==>
                !Before(shown[i].updatedAt.value, shown[j].updatedAt.value)
    {
      assert IntendedUpdatedKey(shown[i]) <= IntendedUpdatedKey(shown[j]);
      if shown[i].updatedAt.Some? && shown[j].updatedAt.Some? {
        OrdinalOrder(shown[i].updatedAt.value, shown[j].updatedAt.value);
      }
    }
  }
}
