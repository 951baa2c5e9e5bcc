/**
 * The issue entity: its two enumerations, the comment and issue records, the `create`
 * factory and the five mutators that change an issue in place and stamp `updated_at`.
 * Identifiers (`uuid4`) and the clock (`datetime.now`) are parameters.
 */
module Models {
  import opened Wrappers
  import opened Time
  import Seqs

  datatype Status = Open | InProgress | Resolved | Closed

  datatype Priority = Low | Medium | High | Critical

  /** The string each status is stored and typed as. */
  function StatusValue(s: Status): string {
    match s
    case Open => "open"
    case InProgress => "in_progress"
    case Resolved => "resolved"
    case Closed => "closed"
  }

  function PriorityValue(p: Priority): string {
    match p
    case Low => "low"
    case Medium => "medium"
    case High => "high"
    case Critical => "critical"
  }

  /** `IssueStatus(v)`: the status whose value is exactly `v`; any other string raises. */
  function ParseStatus(v: string): (r: Option<Status>)
    ensures forall s :: r == Some(s) <==> v == StatusValue(s)
  {
    if v == "open" then Some(Open)
    else if v == "in_progress" then Some(InProgress)
    else if v == "resolved" then Some(Resolved)
    else if v == "closed" then Some(Closed)
    else None
  }

  /** `IssuePriority(v)`: the priority whose value is exactly `v`; any other string raises. */
  function ParsePriority(v: string): (r: Option<Priority>)
    ensures forall p :: r == Some(p) <==> v == PriorityValue(p)
  {
    if v == "low" then Some(Low)
    else if v == "medium" then Some(Medium)
    else if v == "high" then Some(High)
    else if v == "critical" then Some(Critical)
    else None
  }

  datatype Comment = Comment(
    id: string,
    issueId: string,
    author: string,
    content: string,
    createdAt: Timestamp,
    updatedAt: Option<Timestamp>)

  /** The value of an issue's fields at one moment: what is encoded, decoded and stored. */
  datatype IssueRecord = IssueRecord(
    id: string,
    projectId: string,
    title: string,
    description: string,
    status: Status,
    priority: Priority,
    author: string,
    assignee: Option<string>,
    createdAt: Timestamp,
    updatedAt: Option<Timestamp>,
    comments: seq<Comment>,
    labels: seq<string>)

  /**
   * The record after `add_label(tag)` at time `now`: the tag is then a label, no other
   * label appears or goes, only the labels and `updated_at` can change, and the time
   * stamp moves exactly when the tag was new.
   */
  function WithLabel(r: IssueRecord, tag: string, now: Timestamp): (w: IssueRecord)
    ensures forall x :: x in w.labels <==> x in r.labels || x == tag
    ensures w.(labels := r.labels, updatedAt := r.updatedAt) == r
    ensures w.updatedAt == if tag in r.labels then r.updatedAt else Some(now)
    ensures tag in r.labels ==> w == r
    ensures tag !in r.labels ==> w.labels == r.labels + [tag]
  {
    if tag in r.labels then r
    else r.(labels := r.labels + [tag], updatedAt := Some(now))
  }

  /** Adding a label that is already there changes nothing, the time stamp included. */
  lemma AddLabelIdempotent(r: IssueRecord, tag: string, first: Timestamp, second: Timestamp)
    ensures WithLabel(WithLabel(r, tag, first), tag, second) == WithLabel(r, tag, first)
    ensures tag in WithLabel(r, tag, first).labels
  {
    if tag !in r.labels {
      assert WithLabel(r, tag, first).labels[|r.labels|] == tag;
    }
  }

  /** Adding a label keeps a duplicate-free label list duplicate-free, and only ever appends. */
  lemma AddLabelKeepsLabelsUnique(r: IssueRecord, tag: string, now: Timestamp)
    requires Seqs.NoDuplicates(r.labels)
    ensures Seqs.NoDuplicates(WithLabel(r, tag, now).labels)
    ensures WithLabel(r, tag, now).labels[..|r.labels|] == r.labels
    ensures |WithLabel(r, tag, now).labels| <= |r.labels| + 1
  {
    var s := WithLabel(r, tag, now).labels;
    if tag !in r.labels {
      forall i, j | 0 <= i < j < |s| ensures s[i] != s[j] {
        if j == |r.labels| {
          assert s[i] == r.labels[i];
        } else {
          assert s[i] == r.labels[i] && s[j] == r.labels[j];
        }
      }
    }
  }

  /** A tracked issue; the mutators change its fields in place. */
  class Issue {
    var id: string
    var projectId: string
    var title: string
    var description: string
    var status: Status
    var priority: Priority
    var author: string
    var assignee: Option<string>
    var createdAt: Timestamp
    var updatedAt: Option<Timestamp>
    var comments: seq<Comment>
    var labels: seq<string>

    function Record(): IssueRecord
      reads this
    {
      IssueRecord(id, projectId, title, description, status, priority, author, assignee,
                  createdAt, updatedAt, comments, labels)
    }

    /** The dataclass constructor: an issue holding exactly the fields of `r`. */
    constructor FromRecord(r: IssueRecord)
      ensures Record() == r
    {
      id, projectId, title, description := r.id, r.projectId, r.title, r.description;
      status, priority, author, assignee := r.status, r.priority, r.author, r.assignee;
      createdAt, updatedAt, comments, labels := r.createdAt, r.updatedAt, r.comments, r.labels;
    }

    /**
     * `Issue.create`: a new open, unassigned, never-updated issue without comments,
     * created at `now`, with priority medium unless given and the labels exactly as given.
     */
    constructor Create(newId: string, project: string, newTitle: string, newDescription: string,
                       newAuthor: string, now: Timestamp,
                       newPriority: Priority := Medium, newLabels: Option<seq<string>> := None)
      ensures Record() == IssueRecord(newId, project, newTitle, newDescription, Open, newPriority,
                                      newAuthor, None, now, None, [],
                                      if newLabels.Some? then newLabels.value else [])
    {
      id, projectId, title, description := newId, project, newTitle, newDescription;
      status, priority, author, assignee := Open, newPriority, newAuthor, None;
      createdAt, updatedAt, comments := now, None, [];
      labels := newLabels.GetOr([]);
    }

    /** Appends one comment by `commentAuthor` at the end and returns it; only the comments and the stamp change. */
    method AddComment(commentId: string, commentAuthor: string, content: string, now: Timestamp)
      returns (c: Comment)
      modifies this
      ensures c == Comment(commentId, id, commentAuthor, content, now, None)
      ensures Record() == old(Record()).(comments := old(comments) + [c], updatedAt := Some(now))
    {
      c := Comment(commentId, id, commentAuthor, content, now, None);
      comments := comments + [c];
      updatedAt := Some(now);
    }

    /** Any status may follow any other: only the status and the stamp change. */
    method UpdateStatus(newStatus: Status, now: Timestamp)
      modifies this
      ensures Record() == old(Record()).(status := newStatus, updatedAt := Some(now))
    {
      status := newStatus;
      updatedAt := Some(now);
    }

    /** Any priority may follow any other: only the priority and the stamp change. */
    method UpdatePriority(newPriority: Priority, now: Timestamp)
      modifies this
      ensures Record() == old(Record()).(priority := newPriority, updatedAt := Some(now))
    {
      priority := newPriority;
      updatedAt := Some(now);
    }

    /** Replaces any previous assignee; only the assignee and the stamp change. */
    method Assign(newAssignee: string, now: Timestamp)
      modifies this
      ensures Record() == old(Record()).(assignee := Some(newAssignee), updatedAt := Some(now))
    {
      assignee := Some(newAssignee);
      updatedAt := Some(now);
    }

    /** Appends `tag` unless present; a present label leaves the whole issue as it was. */
    method AddLabel(tag: string, now: Timestamp)
      modifies this
      ensures Record() == WithLabel(old(Record()), tag, now)
      ensures Seqs.NoDuplicates(old(labels)) ==> Seqs.NoDuplicates(labels)
    {
      if tag !in labels {
        labels := labels + [tag];
        updatedAt := Some(now);
      }
      if Seqs.NoDuplicates(old(labels)) {
        AddLabelKeepsLabelsUnique(old(Record()), tag, now);
      }
    }
  }
}
