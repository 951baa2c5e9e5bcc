/**
 * Persistence of issues: the encoder that turns an issue into a JSON value tree, the
 * decoder that rebuilds it, and the per-project list operations on a disk that maps each
 * project id to the content of its file.
 */
module Storage {
  import opened Wrappers
  import opened Time
  import opened Json
  import opened Models
  import Seqs

  /**
   * The Python exception that interrupts decoding. `Unrepresentable` stands for a value
   * the untyped dataclass would carry although the field's declared type excludes it
   * (a number as a title, `""` as a time stamp): the typed records here cannot hold it.
   */
  datatype DecodeError =
    | TypeError
    | KeyError(key: string)
    | ValueError
    | Unrepresentable(field: string)

  /** The keyword arguments `IssueComment(...)` accepts. */
  const CommentFields: set<string> := {"id", "issue_id", "author", "content", "created_at", "updated_at"}

  /** The keyword arguments `Issue(...)` accepts. */
  const IssueFields: set<string> :=
    {"id", "project_id", "title", "description", "status", "priority", "author", "assignee",
     "created_at", "updated_at", "comments", "labels"}

  // ---------------------------------------------------------------------------
  // Encoding: `dataclasses.asdict` with enums as their values and datetimes as `isoformat()`
  // ---------------------------------------------------------------------------

  function EncodeTimestamp(t: Timestamp): Value {
    JString(IsoFormat(t))
  }

  function EncodeOptTimestamp(t: Option<Timestamp>): Value {
    match t
    case None => JNull
    case Some(x) => EncodeTimestamp(x)
  }

  function EncodeComment(c: Comment): (v: Value)
    ensures v.JObject?
  {
    JObject(map[
      "id" := JString(c.id),
      "issue_id" := JString(c.issueId),
      "author" := JString(c.author),
      "content" := JString(c.content),
      "created_at" := EncodeTimestamp(c.createdAt),
      "updated_at" := EncodeOptTimestamp(c.updatedAt)])
  }

  function EncodeComments(cs: seq<Comment>): (vs: seq<Value>)
    ensures |vs| == |cs|
  {
    seq(|cs|, i requires 0 <= i < |cs| => EncodeComment(cs[i]))
  }

  function EncodeLabels(labels: seq<string>): (vs: seq<Value>)
    ensures |vs| == |labels|
  {
    seq(|labels|, i requires 0 <= i < |labels| => JString(labels[i]))
  }

  /** An issue becomes an object with one member per dataclass field. */
  function EncodeIssue(r: IssueRecord): (v: Value)
    ensures v.JObject?
  {
    JObject(map[
      "id" := JString(r.id),
      "project_id" := JString(r.projectId),
      "title" := JString(r.title),
      "description" := JString(r.description),
      "status" := JString(StatusValue(r.status)),
      "priority" := JString(PriorityValue(r.priority)),
      "author" := JString(r.author),
      "assignee" := (match r.assignee case None => JNull case Some(a) => JString(a)),
      "created_at" := EncodeTimestamp(r.createdAt),
      "updated_at" := EncodeOptTimestamp(r.updatedAt),
      "comments" := JArray(EncodeComments(r.comments)),
      "labels" := JArray(EncodeLabels(r.labels))])
  }

  /** An encoded comment has exactly the fields `IssueComment(...)` accepts. */
  lemma EncodedCommentKeys(c: Comment)
    ensures EncodeComment(c).fields.Keys == CommentFields
  {
  }

  /** An encoded issue has exactly the fields `Issue(...)` accepts. */
  lemma EncodedKeys(r: IssueRecord)
    ensures EncodeIssue(r).fields.Keys == IssueFields
  {
  }

  /** The content `save_issue` and `delete_issue` write: the list of encoded issues. */
  function EncodeIssues(rs: seq<IssueRecord>): (v: Value)
    ensures v.JArray? && |v.items| == |rs|
  {
    JArray(seq(|rs|, i requires 0 <= i < |rs| => EncodeIssue(rs[i])))
  }

  // ---------------------------------------------------------------------------
  // Decoding: `_decode_issue` and the comprehension of `get_issues`
  // ---------------------------------------------------------------------------

  /** `d[key]`. */
  function Field(f: map<string, Value>, key: string): (r: Result<Value, DecodeError>)
    ensures r.Ok? <==> key in f
    ensures r.Ok? ==> r.value == f[key]
    ensures r.Err? ==> r.error == KeyError(key)
  {
    if key in f then Ok(f[key]) else Err(KeyError(key))
  }

  /** `for x in v`, where each element is then subscripted by a field name. */
  function Iterate(v: Value): (r: Result<seq<Value>, DecodeError>)
    ensures v.JArray? ==> r == Ok(v.items)
    ensures !v.JArray? ==> (r.Ok? <==> !Truthy(v) && (v.JObject? || v.JString?))
    ensures r.Ok? ==> !v.JArray? ==> r.value == []
  {
    match v
    case JArray(items) => Ok(items)
    case JObject(fields) => if fields == map[] then Ok([]) else Err(TypeError)
    case JString(s) => if s == "" then Ok([]) else Err(TypeError)
    case _ => Err(TypeError)
  }

  /**
   * `[decode(x) for x in items]`: all decoded in order, or the error of the first item
   * that fails.
   */
  function MapAll<T>(items: seq<Value>, decode: Value -> Result<T, DecodeError>): (r: Result<seq<T>, DecodeError>)
    ensures r.Ok? <==> forall i :: 0 <= i < |items| ==> decode(items[i]).Ok?
    ensures r.Ok? ==> |r.value| == |items| && forall i :: 0 <= i < |items| ==> decode(items[i]) == Ok(r.value[i])
  {
    if items == [] then Ok([])
    else
      var n := |items| - 1;
      assert forall i :: 0 <= i < n ==> items[..n][i] == items[i];
      var init :- MapAll(items[..n], decode);
      var last :- decode(items[n]);
      Ok(init + [last])
  }

  /** The error of a failed `[decode(x) for x in items]` is the error of its first failing item. */
  lemma {:induction false} MapAllFirstError<T>(items: seq<Value>, k: nat, decode: Value -> Result<T, DecodeError>)
    requires k < |items| && decode(items[k]).Err?
    requires forall j :: 0 <= j < k ==> decode(items[j]).Ok?
    ensures MapAll(items, decode) == Err(decode(items[k]).error)
  {
    var n := |items| - 1;
    if k < n {
      assert items[..n][k] == items[k];
      assert forall j :: 0 <= j < k ==> items[..n][j] == items[j];
      MapAllFirstError(items[..n], k, decode);
    } else {
      assert forall j :: 0 <= j < n ==> items[..n][j] == items[j];
    }
  }

  function DecodeStatusValue(v: Value): (r: Result<Status, DecodeError>) {
    if v.JString? && ParseStatus(v.s).Some? then Ok(ParseStatus(v.s).value) else Err(ValueError)
  }

  function DecodePriorityValue(v: Value): (r: Result<Priority, DecodeError>) {
    if v.JString? && ParsePriority(v.s).Some? then Ok(ParsePriority(v.s).value) else Err(ValueError)
  }

  /**
   * A present time stamp: a true value goes through `fromisoformat` (which wants a string
   * in ISO 8601 form); a false one is left as it is by the decoder.
   */
  function DecodeTimestampValue(v: Value, key: string): (r: Result<Timestamp, DecodeError>) {
    if !Truthy(v) then Err(Unrepresentable(key))
    else if !v.JString? then Err(TypeError)
    else
      match FromIsoFormat(v.s)
      case None => Err(ValueError)
      case Some(t) => Ok(t)
  }

  /** A present optional time stamp: `null` stays `None`. */
  function DecodeOptTimestampValue(v: Value, key: string): (r: Result<Option<Timestamp>, DecodeError>) {
    if v == JNull then Ok(None)
    else
      var t :- DecodeTimestampValue(v, key);
      Ok(Some(t))
  }

  /** A required string argument of the dataclass constructor. */
  function DecodeText(f: map<string, Value>, key: string): (r: Result<string, DecodeError>) {
    if key !in f then Err(TypeError)
    else if f[key].JString? then Ok(f[key].s)
    else Err(Unrepresentable(key))
  }

  /** Whether both time stamps of a comment convert: `created_at` present, `updated_at` optional. */
  predicate CommentStampsRead(f: map<string, Value>) {
    "created_at" in f && DecodeTimestampValue(f["created_at"], "created_at").Ok? &&
    ("updated_at" in f ==> DecodeOptTimestampValue(f["updated_at"], "updated_at").Ok?)
  }

  /** Whether the string arguments of `IssueComment(...)` are all present. */
  predicate HasCommentTextFields(f: map<string, Value>) {
    "id" in f && "issue_id" in f && "author" in f && "content" in f
  }

  /**
   * One comment of `_decode_issue`: its time stamps are converted, then it is handed to
   * the dataclass constructor. A value that is no dictionary cannot be subscripted; a
   * missing `created_at` is a `KeyError`; once converted, an unknown key or a missing
   * string argument is rejected by the constructor.
   */
  function DecodeComment(v: Value): (r: Result<Comment, DecodeError>)
    ensures !v.JObject? ==> r == Err(TypeError)
    ensures v.JObject? && "created_at" !in v.fields ==> r == Err(KeyError("created_at"))
    ensures v.JObject? && CommentStampsRead(v.fields) && !(v.fields.Keys <= CommentFields) ==> r == Err(TypeError)
    ensures v.JObject? && CommentStampsRead(v.fields) && !HasCommentTextFields(v.fields) ==> r == Err(TypeError)
    ensures r.Ok? ==> v.JObject? && CommentStampsRead(v.fields) && HasCommentTextFields(v.fields) &&
                      v.fields.Keys <= CommentFields
    ensures r.Ok? ==> DecodeText(v.fields, "id") == Ok(r.value.id) && DecodeText(v.fields, "issue_id") == Ok(r.value.issueId) &&
                      DecodeText(v.fields, "author") == Ok(r.value.author) &&
                      DecodeText(v.fields, "content") == Ok(r.value.content)
    ensures r.Ok? ==> DecodeTimestampValue(v.fields["created_at"], "created_at") == Ok(r.value.createdAt)
  {
    if !v.JObject? then Err(TypeError)
    else
      var f := v.fields;
      var created :- Field(f, "created_at");
      var createdAt :- DecodeTimestampValue(created, "created_at");
      var updatedAt :- if "updated_at" in f then DecodeOptTimestampValue(f["updated_at"], "updated_at") else Ok(None);
      if !(f.Keys <= CommentFields) || !HasCommentTextFields(f) then Err(TypeError)
      else
        var id :- DecodeText(f, "id");
        var issueId :- DecodeText(f, "issue_id");
        var author :- DecodeText(f, "author");
        var content :- DecodeText(f, "content");
        Ok(Comment(id, issueId, author, content, createdAt, updatedAt))
  }

  function DecodeAssignee(f: map<string, Value>): (r: Result<Option<string>, DecodeError>) {
    if "assignee" !in f || f["assignee"] == JNull then Ok(None)
    else if f["assignee"].JString? then Ok(Some(f["assignee"].s))
    else Err(Unrepresentable("assignee"))
  }

  function DecodeLabel(v: Value): (r: Result<string, DecodeError>) {
    if v.JString? then Ok(v.s) else Err(Unrepresentable("labels"))
  }

  function DecodeLabels(f: map<string, Value>): (r: Result<seq<string>, DecodeError>) {
    if "labels" !in f then Ok([])
    else if f["labels"].JArray? then MapAll(f["labels"].items, DecodeLabel)
    else Err(Unrepresentable("labels"))
  }

  predicate StatusReads(f: map<string, Value>) {
    "status" in f && DecodeStatusValue(f["status"]).Ok?
  }

  predicate PriorityReads(f: map<string, Value>) {
    "priority" in f && DecodePriorityValue(f["priority"]).Ok?
  }

  predicate CreatedReads(f: map<string, Value>) {
    "created_at" in f && DecodeTimestampValue(f["created_at"], "created_at").Ok?
  }

  /** Whether the string arguments of `Issue(...)` that have no default are all present. */
  predicate HasTextFields(f: map<string, Value>) {
    "id" in f && "project_id" in f && "title" in f && "description" in f && "author" in f
  }

  /** The fields `_decode_issue` converts before building the issue. */
  datatype Converted = Converted(
    status: Status,
    priority: Priority,
    createdAt: Timestamp,
    updatedAt: Option<Timestamp>,
    comments: seq<Comment>)

  /** The conversions of `_decode_issue`, in its order: status, priority, both time stamps, the comments. */
  function Convert(f: map<string, Value>): (r: Result<Converted, DecodeError>)
    ensures "status" !in f ==> r == Err(KeyError("status"))
    ensures "status" in f && !StatusReads(f) ==> r == Err(ValueError)
    ensures StatusReads(f) && "priority" !in f ==> r == Err(KeyError("priority"))
    ensures StatusReads(f) && "priority" in f && !PriorityReads(f) ==> r == Err(ValueError)
    ensures StatusReads(f) && PriorityReads(f) && "created_at" !in f ==> r == Err(KeyError("created_at"))
    ensures StatusReads(f) && PriorityReads(f) && CreatedReads(f) && "updated_at" !in f ==> r == Err(KeyError("updated_at"))
    ensures r.Ok? ==> StatusReads(f) && PriorityReads(f) && CreatedReads(f) && "updated_at" in f
    ensures r.Ok? ==> DecodeStatusValue(f["status"]) == Ok(r.value.status) && DecodePriorityValue(f["priority"]) == Ok(r.value.priority)
  {
    var statusValue :- Field(f, "status");
    var status :- DecodeStatusValue(statusValue);
    var priorityValue :- Field(f, "priority");
    var priority :- DecodePriorityValue(priorityValue);
    var created :- Field(f, "created_at");
    var createdAt :- DecodeTimestampValue(created, "created_at");
    var updated :- Field(f, "updated_at");
    var updatedAt :- DecodeOptTimestampValue(updated, "updated_at");
    var items :- if "comments" in f then Iterate(f["comments"]) else Ok([]);
    var comments :- MapAll(items, DecodeComment);
    Ok(Converted(status, priority, createdAt, updatedAt, comments))
  }

  /** `Issue(**issue_dict)` once the conversions are done: no unknown field, every required one present. */
  function Build(f: map<string, Value>, c: Converted): (r: Result<IssueRecord, DecodeError>)
    ensures !(f.Keys <= IssueFields) ==> r == Err(TypeError)
    ensures !HasTextFields(f) ==> r == Err(TypeError)
    ensures r.Ok? ==> HasTextFields(f) && f.Keys <= IssueFields
    ensures r.Ok? ==> r.value.status == c.status && r.value.priority == c.priority &&
                      DecodeText(f, "id") == Ok(r.value.id) && DecodeText(f, "title") == Ok(r.value.title)
  {
    if !(f.Keys <= IssueFields) || !HasTextFields(f) then Err(TypeError)
    else
      var id :- DecodeText(f, "id");
      var projectId :- DecodeText(f, "project_id");
      var title :- DecodeText(f, "title");
      var description :- DecodeText(f, "description");
      var author :- DecodeText(f, "author");
      var assignee :- DecodeAssignee(f);
      var labels :- DecodeLabels(f);
      Ok(IssueRecord(id, projectId, title, description, c.status, c.priority, author, assignee,
                     c.createdAt, c.updatedAt, c.comments, labels))
  }

  /**
   * `_decode_issue`: an object is converted, then handed to the dataclass constructor. The
   * errors come in the source's order: a value that is no dictionary cannot be subscripted;
   * a missing status, priority or time stamp is a `KeyError` for that key and a value
   * naming no status or priority a `ValueError`; once converted, an unknown key or a
   * missing string argument is rejected by the constructor.
   */
  function DecodeIssue(v: Value): (r: Result<IssueRecord, DecodeError>)
    ensures !v.JObject? ==> r == Err(TypeError)
    ensures v.JObject? && Convert(v.fields).Err? ==> r == Err(Convert(v.fields).error)
    ensures v.JObject? && Convert(v.fields).Ok? && !(v.fields.Keys <= IssueFields) ==> r == Err(TypeError)
    ensures v.JObject? && Convert(v.fields).Ok? && !HasTextFields(v.fields) ==> r == Err(TypeError)
    ensures r.Ok? ==> v.JObject? && HasTextFields(v.fields) && v.fields.Keys <= IssueFields
    ensures r.Ok? ==> StatusReads(v.fields) && PriorityReads(v.fields) && CreatedReads(v.fields) && "updated_at" in v.fields
    ensures r.Ok? ==> DecodeStatusValue(v.fields["status"]) == Ok(r.value.status) &&
                      DecodePriorityValue(v.fields["priority"]) == Ok(r.value.priority) &&
                      DecodeText(v.fields, "id") == Ok(r.value.id) && DecodeText(v.fields, "title") == Ok(r.value.title)
  {
    if !v.JObject? then Err(TypeError)
    else
      var c :- Convert(v.fields);
      Build(v.fields, c)
  }

  /**
   * What `get_issues` makes of a parsed file: an array gives every element decoded, in
   * order, or fails when any element fails; an empty object or string gives no issues;
   * any other value is a `TypeError`.
   */
  function DecodeDocument(v: Value): (r: Result<seq<IssueRecord>, DecodeError>)
    ensures v.JArray? ==> (r.Ok? <==> forall i :: 0 <= i < |v.items| ==> DecodeIssue(v.items[i]).Ok?)
    ensures v.JArray? && r.Ok? ==>
              |r.value| == |v.items| && forall i :: 0 <= i < |v.items| ==> DecodeIssue(v.items[i]) == Ok(r.value[i])
    ensures !v.JArray? ==> r == (if !Truthy(v) && (v.JObject? || v.JString?) then Ok([]) else Err(TypeError))
  {
    var items :- Iterate(v);
    MapAll(items, DecodeIssue)
  }

  /** The comment loop of `_decode_issue`, appending one decoded comment per step. */
  method DecodeCommentList(items: seq<Value>) returns (r: Result<seq<Comment>, DecodeError>)
    ensures r == MapAll(items, DecodeComment)
  {
    var comments: seq<Comment> := [];
    var i := 0;
    while i < |items|
      invariant 0 <= i <= |items|
      invariant MapAll(items[..i], DecodeComment) == Ok(comments)
    {
      var c := DecodeComment(items[i]);
      if c.Err? {
        assert forall j :: 0 <= j < i ==> items[..i][j] == items[j];
        MapAllFirstError(items, i, DecodeComment);
        return Err(c.error);
      }
      assert items[..i + 1][..i] == items[..i];
      comments := comments + [c.value];
      i := i + 1;
    }
    assert items[..i] == items;
    r := Ok(comments);
  }

  // ---------------------------------------------------------------------------
  // The round trip
  // ---------------------------------------------------------------------------

  /** A set or unset time stamp reads back as itself. */
  lemma OptTimestampRoundTrip(t: Option<Timestamp>, key: string)
    ensures DecodeOptTimestampValue(EncodeOptTimestamp(t), key) == Ok(t)
    ensures t.Some? ==> DecodeTimestampValue(EncodeTimestamp(t.value), key) == Ok(t.value)
  {
    if t.Some? {
      IsoFormatRoundTrip(t.value);
      assert Truthy(EncodeTimestamp(t.value));
    }
  }

  lemma CommentRoundTrip(c: Comment)
    ensures DecodeComment(EncodeComment(c)) == Ok(c)
  {
    EncodedCommentKeys(c);
    OptTimestampRoundTrip(Some(c.createdAt), "created_at");
    OptTimestampRoundTrip(c.updatedAt, "updated_at");
  }

  lemma CommentsRoundTrip(cs: seq<Comment>)
    ensures MapAll(EncodeComments(cs), DecodeComment) == Ok(cs)
  {
    var items := EncodeComments(cs);
    forall i | 0 <= i < |items| ensures DecodeComment(items[i]) == Ok(cs[i]) {
      CommentRoundTrip(cs[i]);
    }
    var comments := MapAll(items, DecodeComment);
    assert comments.Ok?;
    assert comments.value == cs;
  }

  lemma ConvertRoundTrip(r: IssueRecord)
    ensures Convert(EncodeIssue(r).fields) == Ok(Converted(r.status, r.priority, r.createdAt, r.updatedAt, r.comments))
  {
    EncodedStatus(r);
    EncodedPriority(r);
    EncodedStamps(r);
    EncodedComments(r);
  }

  /** The status of an encoded issue reads back. */
  lemma EncodedStatus(r: IssueRecord)
    ensures var f := EncodeIssue(r).fields;
            Field(f, "status") == Ok(JString(StatusValue(r.status))) && DecodeStatusValue(f["status"]) == Ok(r.status)
  {
    assert EncodeIssue(r).fields["status"] == JString(StatusValue(r.status));
  }

  /** The priority of an encoded issue reads back. */
  lemma EncodedPriority(r: IssueRecord)
    ensures var f := EncodeIssue(r).fields;
            Field(f, "priority") == Ok(JString(PriorityValue(r.priority))) && DecodePriorityValue(f["priority"]) == Ok(r.priority)
  {
    assert EncodeIssue(r).fields["priority"] == JString(PriorityValue(r.priority));
  }

  /** Both time stamps of an encoded issue read back. */
  lemma EncodedStamps(r: IssueRecord)
    ensures var f := EncodeIssue(r).fields;
            Field(f, "created_at") == Ok(EncodeTimestamp(r.createdAt)) &&
            DecodeTimestampValue(EncodeTimestamp(r.createdAt), "created_at") == Ok(r.createdAt) &&
            Field(f, "updated_at") == Ok(EncodeOptTimestamp(r.updatedAt)) &&
            DecodeOptTimestampValue(EncodeOptTimestamp(r.updatedAt), "updated_at") == Ok(r.updatedAt)
  {
    var f := EncodeIssue(r).fields;
    assert f["created_at"] == EncodeTimestamp(r.createdAt);
    assert f["updated_at"] == EncodeOptTimestamp(r.updatedAt);
    OptTimestampRoundTrip(Some(r.createdAt), "created_at");
    OptTimestampRoundTrip(r.updatedAt, "updated_at");
  }

  /** The comments of an encoded issue read back. */
  lemma EncodedComments(r: IssueRecord)
    ensures var f := EncodeIssue(r).fields;
            "comments" in f && Iterate(f["comments"]) == Ok(EncodeComments(r.comments)) &&
            MapAll(EncodeComments(r.comments), DecodeComment) == Ok(r.comments)
  {
    var f := EncodeIssue(r).fields;
    assert f["comments"] == JArray(EncodeComments(r.comments));
    CommentsRoundTrip(r.comments);
  }

  lemma BuildRoundTrip(r: IssueRecord)
    ensures Build(EncodeIssue(r).fields, Converted(r.status, r.priority, r.createdAt, r.updatedAt, r.comments)) == Ok(r)
  {
    EncodedKeys(r);
    EncodedIds(r);
    EncodedTexts(r);
    EncodedAssignee(r);
    EncodedLabels(r);
  }

  /** The ids of an encoded issue read back. */
  lemma EncodedIds(r: IssueRecord)
    ensures var f := EncodeIssue(r).fields;
            DecodeText(f, "id") == Ok(r.id) && DecodeText(f, "project_id") == Ok(r.projectId)
  {
    var f := EncodeIssue(r).fields;
    assert f["id"] == JString(r.id);
    assert f["project_id"] == JString(r.projectId);
  }

  /** The free text fields of an encoded issue read back. */
  lemma EncodedTexts(r: IssueRecord)
    ensures var f := EncodeIssue(r).fields;
            DecodeText(f, "title") == Ok(r.title) && DecodeText(f, "description") == Ok(r.description) &&
            DecodeText(f, "author") == Ok(r.author)
  {
    var f := EncodeIssue(r).fields;
    assert f["title"] == JString(r.title);
    assert f["description"] == JString(r.description);
    assert f["author"] == JString(r.author);
  }

  lemma EncodedAssignee(r: IssueRecord)
    ensures DecodeAssignee(EncodeIssue(r).fields) == Ok(r.assignee)
  {
    var f := EncodeIssue(r).fields;
    assert f["assignee"] == match r.assignee case None => JNull case Some(a) => JString(a);
  }

  lemma EncodedLabels(r: IssueRecord)
    ensures DecodeLabels(EncodeIssue(r).fields) == Ok(r.labels)
  {
    var f := EncodeIssue(r).fields;
    var items := EncodeLabels(r.labels);
    assert f["labels"] == JArray(items);
    var labels := MapAll(items, DecodeLabel);
    assert forall i :: 0 <= i < |items| ==> DecodeLabel(items[i]) == Ok(r.labels[i]);
    assert labels.Ok?;
    assert labels.value == r.labels;
  }

  /** Decoding what the encoder wrote gives back every field, the comments and both enumerations included. */
  lemma IssueRoundTrip(r: IssueRecord)
    ensures DecodeIssue(EncodeIssue(r)) == Ok(r)
  {
    ConvertRoundTrip(r);
    BuildRoundTrip(r);
  }

  /** A file written by `save_issue` or `delete_issue` reads back as the list that was written. */
  lemma DocumentRoundTrip(rs: seq<IssueRecord>)
    ensures DecodeDocument(EncodeIssues(rs)) == Ok(rs)
  {
    var items := EncodeIssues(rs).items;
    forall i | 0 <= i < |rs| ensures DecodeIssue(items[i]) == Ok(rs[i]) {
      IssueRoundTrip(rs[i]);
    }
    var decoded := MapAll(items, DecodeIssue);
    assert decoded.Ok?;
    assert decoded.value == rs;
  }

  /** An unknown status is an error of the whole read: only a parse failure of the file is swallowed. */
  lemma UnknownStatusIsError(fields: map<string, Value>, rest: seq<Value>)
    requires "status" in fields && fields["status"].JString? && ParseStatus(fields["status"].s).None?
    ensures DecodeDocument(JArray([JObject(fields)] + rest)) == Err(ValueError)
  {
    var items := [JObject(fields)] + rest;
    assert DecodeIssue(items[0]) == Err(ValueError);
    MapAllFirstError(items, 0, DecodeIssue);
  }

  /** An unknown priority is an error of the whole read as well, once the status is known. */
  lemma UnknownPriorityIsError(fields: map<string, Value>, rest: seq<Value>)
    requires StatusReads(fields)
    requires "priority" in fields && fields["priority"].JString? && ParsePriority(fields["priority"].s).None?
    ensures DecodeDocument(JArray([JObject(fields)] + rest)) == Err(ValueError)
  {
    var items := [JObject(fields)] + rest;
    assert DecodeIssue(items[0]) == Err(ValueError);
    MapAllFirstError(items, 0, DecodeIssue);
  }

  // ---------------------------------------------------------------------------
  // Lists of issues keyed by id
  // ---------------------------------------------------------------------------

  predicate HasId(s: seq<IssueRecord>, id: string) {
    exists i :: 0 <= i < |s| && s[i].id == id
  }

  predicate UniqueIds(s: seq<IssueRecord>) {
    forall i, j :: 0 <= i < j < |s| ==> s[i].id != s[j].id
  }

  /** `next((i for i, x in enumerate(s) if x.id == id), None)`. */
  function IdIndex(s: seq<IssueRecord>, id: string): (r: Option<nat>)
    ensures r.Some? ==> r.value < |s| && s[r.value].id == id && forall j :: 0 <= j < r.value ==> s[j].id != id
    ensures r.None? <==> !HasId(s, id)
  {
    if s == [] then None
    else if s[0].id == id then Some(0)
    else
      match IdIndex(s[1..], id)
      case None => None
      case Some(k) => Some(k + 1)
  }

  /** Saving into a list: the first entry with the same id is replaced, or the issue is appended. */
  function Upsert(s: seq<IssueRecord>, x: IssueRecord): (r: seq<IssueRecord>)
    ensures IdIndex(s, x.id).Some? ==> r == s[IdIndex(s, x.id).value := x]
    ensures IdIndex(s, x.id).None? ==> r == s + [x]
  {
    if s == [] then [x]
    else if s[0].id == x.id then [x] + s[1..]
    else [s[0]] + Upsert(s[1..], x)
  }

  /** After a save the issue is the first one with its id. */
  lemma UpsertThenFind(s: seq<IssueRecord>, x: IssueRecord)
    ensures IdIndex(Upsert(s, x), x.id).Some?
    ensures Upsert(s, x)[IdIndex(Upsert(s, x), x.id).value] == x
  {
    var r := Upsert(s, x);
    var k := if IdIndex(s, x.id).Some? then IdIndex(s, x.id).value else |s|;
    assert r[k] == x;
    assert forall j :: 0 <= j < k ==> r[j] == s[j];
  }

  /** Saving the same issue twice is saving it once, with the later contents. */
  lemma UpsertTwice(s: seq<IssueRecord>, a: IssueRecord, b: IssueRecord)
    requires a.id == b.id
    ensures Upsert(Upsert(s, a), b) == Upsert(s, b)
  {
    var r := Upsert(s, a);
    var k := if IdIndex(s, a.id).Some? then IdIndex(s, a.id).value else |s|;
    assert |r| > k && r[k] == a;
    assert forall j :: 0 <= j < k ==> r[j] == s[j];
    assert HasId(r, a.id);
    var m := IdIndex(r, a.id).value;
    assert m == k;
    assert Upsert(r, b) == r[k := b];
    if k < |s| {
      assert Upsert(s, b) == s[k := b];
    } else {
      assert Upsert(s, b) == s + [b];
    }
  }

  /** Saving keeps the ids of a project distinct. */
  lemma UpsertKeepsIdsUnique(s: seq<IssueRecord>, x: IssueRecord)
    requires UniqueIds(s)
    ensures UniqueIds(Upsert(s, x))
  {
    var r := Upsert(s, x);
    if IdIndex(s, x.id).None? {
      forall i, j | 0 <= i < j < |r| ensures r[i].id != r[j].id {
        if j == |s| {
          assert r[i] == s[i];
        } else {
          assert r[i] == s[i] && r[j] == s[j];
        }
      }
    }
  }

  /** `[i for i in s if i.id != id]`. */
  function Without(s: seq<IssueRecord>, id: string): (r: seq<IssueRecord>)
    ensures |r| == |s| <==> !HasId(s, id)
    ensures forall x :: x in r <==> x in s && x.id != id
    ensures forall x :: multiset(r)[x] == if x.id != id then multiset(s)[x] else 0
  {
    var keep := (x: IssueRecord) => x.id != id;
    Seqs.FilterKeepsLength(s, keep);
    Seqs.FilterCounts(s, keep);
    Seqs.Filter(s, keep)
  }

  /** Deleting keeps the remaining issues in their stored order: it distributes over concatenation. */
  lemma WithoutKeepsOrder(a: seq<IssueRecord>, b: seq<IssueRecord>, id: string)
    ensures Without(a + b, id) == Without(a, id) + Without(b, id)
  {
    Seqs.FilterConcat(a, b, (x: IssueRecord) => x.id != id);
  }

  // ---------------------------------------------------------------------------
  // The store
  // ---------------------------------------------------------------------------

  /** After a save, the project's list reads back as written, with the saved issue found under its id. */
  lemma SavedReadsBack(store: IssueStorage, issues: seq<IssueRecord>, x: IssueRecord)
    requires x.projectId in store.files && store.files[x.projectId] == Stored(EncodeIssues(Upsert(issues, x)))
    ensures store.GetIssues(x.projectId) == Ok(Upsert(issues, x))
    ensures store.GetIssue(x.projectId, x.id) == Ok(Some(x))
  {
    DocumentRoundTrip(Upsert(issues, x));
    UpsertThenFind(issues, x);
  }

  /** The content of a project file: text that is not JSON, or the value it parses to. */
  datatype FileContent = Corrupt | Stored(doc: Value)

  /** `IssueStorage`: the project files of its issues directory, by project id. */
  class IssueStorage {
    var files: map<string, FileContent>

    constructor (existing: map<string, FileContent>)
      ensures files == existing
    {
      files := existing;
    }

    /** A missing or unparseable file reads as no issues; otherwise every element is decoded. */
    function GetIssues(projectId: string): (r: Result<seq<IssueRecord>, DecodeError>)
      reads this
      ensures projectId !in files ==> r == Ok([])
      ensures projectId in files && files[projectId].Corrupt? ==> r == Ok([])
      ensures projectId in files && files[projectId].Stored? ==> r == DecodeDocument(files[projectId].doc)
    {
      if projectId !in files then Ok([])
      else
        match files[projectId]
        case Corrupt => Ok([])
        case Stored(doc) => DecodeDocument(doc)
    }

    /** The first stored issue with the id, or `None`. */
    function GetIssue(projectId: string, issueId: string): (r: Result<Option<IssueRecord>, DecodeError>)
      reads this
      ensures GetIssues(projectId).Err? ==> r == Err(GetIssues(projectId).error)
      ensures GetIssues(projectId).Ok? ==> r.Ok? && (r.value.None? <==> !HasId(GetIssues(projectId).value, issueId))
      ensures r.Ok? && r.value.Some? ==>
                exists k :: 0 <= k < |GetIssues(projectId).value| && GetIssues(projectId).value[k] == r.value.value &&
                            r.value.value.id == issueId &&
                            forall j :: 0 <= j < k ==> GetIssues(projectId).value[j].id != issueId
    {
      var issues :- GetIssues(projectId);
      match IdIndex(issues, issueId)
      case None => Ok(None)
      case Some(k) => Ok(Some(issues[k]))
    }

    /** The projects that have a file. A project without one has no issues. */
    function ProjectIds(): (r: set<string>)
      reads this
      ensures forall p :: p in r <==> p in files
      ensures forall p :: p !in r ==> GetIssues(p) == Ok([])
    {
      files.Keys
    }

    /**
     * `save_issue`: reads the project's list, replaces the first entry with the issue's id
     * or appends the issue, and rewrites the file. A read error leaves the disk untouched.
     */
    method SaveIssue(issue: Issue) returns (out: Result<(), DecodeError>)
      modifies this
      ensures old(GetIssues(issue.projectId)).Err? ==>
                out == Err(old(GetIssues(issue.projectId)).error) && files == old(files)
      ensures old(GetIssues(issue.projectId)).Ok? ==>
                out == Ok(()) &&
                files == old(files)[issue.projectId := Stored(EncodeIssues(Upsert(old(GetIssues(issue.projectId)).value, issue.Record())))]
      ensures old(GetIssues(issue.projectId)).Ok? ==>
                GetIssues(issue.projectId) == Ok(Upsert(old(GetIssues(issue.projectId)).value, issue.Record())) &&
                GetIssue(issue.projectId, issue.id) == Ok(Some(issue.Record()))
    {
      var rec := issue.Record();
      var loaded := GetIssues(rec.projectId);
      if loaded.Err? {
        return Err(loaded.error);
      }
      var issues := loaded.value;
      var index := IdIndex(issues, rec.id);
      if index.Some? {
        issues := issues[index.value := rec];
      } else {
        issues := issues + [rec];
      }
      assert issues == Upsert(loaded.value, rec);
      files := files[rec.projectId := Stored(EncodeIssues(issues))];
      SavedReadsBack(this, loaded.value, rec);
      out := Ok(());
    }

    /**
     * `delete_issue`: drops every issue with the id and rewrites the file, reporting whether
     * anything was dropped; when nothing matches, nothing is written.
     */
    method DeleteIssue(projectId: string, issueId: string) returns (out: Result<bool, DecodeError>)
      modifies this
      ensures old(GetIssues(projectId)).Err? ==> out == Err(old(GetIssues(projectId)).error) && files == old(files)
      ensures old(GetIssues(projectId)).Ok? ==> out == Ok(HasId(old(GetIssues(projectId)).value, issueId))
      ensures !(old(GetIssues(projectId)).Ok? && HasId(old(GetIssues(projectId)).value, issueId)) ==> files == old(files)
      ensures old(GetIssues(projectId)).Ok? && HasId(old(GetIssues(projectId)).value, issueId) ==>
                files == old(files)[projectId := Stored(EncodeIssues(Without(old(GetIssues(projectId)).value, issueId)))] &&
                GetIssues(projectId) == Ok(Without(old(GetIssues(projectId)).value, issueId))
    {
      var loaded := GetIssues(projectId);
      if loaded.Err? {
        return Err(loaded.error);
      }
      var issues := loaded.value;
      var initialCount := |issues|;
      issues := Without(issues, issueId);
      if |issues| == initialCount {
        return Ok(false);
      }
      files := files[projectId := Stored(EncodeIssues(issues))];
      DocumentRoundTrip(issues);
      out := Ok(true);
    }
  }
}
