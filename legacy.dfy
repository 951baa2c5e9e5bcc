/**
 * The older, single-file issue store of the `issues` command line: one database of issues
 * with integer ids, read whole, changed in place and written back whole.
 */
module Legacy {
  import opened Wrappers
  import opened Time
  import opened Text

  /** One stored issue: an integer id, free-form status text and two ISO time stamps. */
  datatype LegacyIssue = LegacyIssue(
    id: int,
    title: string,
    description: string,
    status: string,
    createdAt: string,
    updatedAt: string)

  /** The database file: absent, not parseable as JSON, or a document holding the issue list. */
  datatype DatabaseFile = Missing | Unparseable | Database(issues: seq<LegacyIssue>)

  /** `load_issues()["issues"]`: a missing or corrupted file reads as an empty list. */
  function Loaded(f: DatabaseFile): (issues: seq<LegacyIssue>)
    ensures f.Database? ==> issues == f.issues
    ensures !f.Database? ==> issues == []
  {
    if f.Database? then f.issues else []
  }

  /** `max(issue["id"] for issue in issues)`: an id some issue has, and no issue has a larger one. */
  function MaxId(issues: seq<LegacyIssue>): (m: int)
    requires issues != []
    ensures forall k :: 0 <= k < |issues| ==> issues[k].id <= m
    ensures exists k :: 0 <= k < |issues| && issues[k].id == m
  {
    if |issues| == 1 then issues[0].id
    else
      var rest := MaxId(issues[1..]);
      assert forall k :: 1 <= k < |issues| ==> issues[k] == issues[1..][k - 1];
      if issues[0].id >= rest then issues[0].id else rest
  }

  /** The id `create_issue` gives a new issue: 1 in an empty store, otherwise one more than the largest. */
  function NextId(issues: seq<LegacyIssue>): (n: int)
    ensures issues == [] ==> n == 1
    ensures forall k :: 0 <= k < |issues| ==> issues[k].id < n
    ensures issues != [] ==> exists k :: 0 <= k < |issues| && issues[k].id == n - 1
  {
    if issues == [] then 1 else MaxId(issues) + 1
  }

  predicate HasId(issues: seq<LegacyIssue>, id: int) {
    exists k :: 0 <= k < |issues| && issues[k].id == id
  }

  predicate UniqueIds(issues: seq<LegacyIssue>) {
    forall i, j :: 0 <= i < j < |issues| ==> issues[i].id != issues[j].id
  }

  /** The index of the first issue with the id, or `None` when no issue has it. */
  function IdIndex(issues: seq<LegacyIssue>, id: int): (r: Option<nat>)
    ensures r.None? <==> !HasId(issues, id)
    ensures r.Some? ==> r.value < |issues| && issues[r.value].id == id &&
                        forall k :: 0 <= k < r.value ==> issues[k].id != id
  {
    if issues == [] then None
    else if issues[0].id == id then Some(0)
    else
      match IdIndex(issues[1..], id)
      case None =>
        assert forall k :: 1 <= k < |issues| ==> issues[k] == issues[1..][k - 1];
        None
      case Some(k) => Some(k + 1)
  }

  /**
   * The issue `create_issue` appends: open, with the given title, the description or "",
   * and both stamps the ISO text of the one clock reading `now`, which reads back as `now`.
   */
  function Created(id: int, title: string, description: Option<string>, now: Timestamp): (r: LegacyIssue)
    ensures r.id == id && r.title == title && r.status == "open"
    ensures r.description == if description.Some? then description.value else ""
    ensures r.createdAt == r.updatedAt && FromIsoFormat(r.createdAt) == Some(now)
  {
    IsoFormatRoundTrip(now);
    LegacyIssue(id, title, if Given(description) then description.value else "", "open", IsoFormat(now), IsoFormat(now))
  }

  /**
   * A new issue gets an id no stored issue has, and is the one found under it; a store
   * whose ids are distinct keeps them distinct.
   */
  lemma CreatedIdIsFresh(issues: seq<LegacyIssue>, title: string, description: Option<string>, now: Timestamp)
    ensures !HasId(issues, NextId(issues))
    ensures var added := issues + [Created(NextId(issues), title, description, now)];
            IdIndex(added, NextId(issues)) == Some(|issues|)
    ensures UniqueIds(issues) ==> UniqueIds(issues + [Created(NextId(issues), title, description, now)])
  {
    var n := NextId(issues);
    var added := issues + [Created(n, title, description, now)];
    assert forall k :: 0 <= k < |issues| ==> added[k] == issues[k];
    assert added[|issues|].id == n;
    assert forall k :: 0 <= k < |issues| ==> added[k].id != n;
  }

  /**
   * The issue after `update_issue`: the given fields replaced, the id and the creation
   * stamp kept, and `updated_at` always the ISO text of `now`.
   */
  function Edited(i: LegacyIssue, title: Option<string>, description: Option<string>, status: Option<string>,
                  now: Timestamp): (e: LegacyIssue)
    ensures e.id == i.id && e.createdAt == i.createdAt
    ensures FromIsoFormat(e.updatedAt) == Some(now)
  {
    IsoFormatRoundTrip(now);
    i.(title := if Given(title) then title.value else i.title,
       description := if Given(description) then description.value else i.description,
       status := if Given(status) then status.value else i.status,
       updatedAt := IsoFormat(now))
  }

  /** The issue after `close_issue`: status "closed", `updated_at` reading back as `now`, all else kept. */
  function ClosedIssue(i: LegacyIssue, now: Timestamp): (c: LegacyIssue)
    ensures c.status == "closed" && FromIsoFormat(c.updatedAt) == Some(now)
    ensures c.(status := i.status, updatedAt := i.updatedAt) == i
  {
    IsoFormatRoundTrip(now);
    i.(status := "closed", updatedAt := IsoFormat(now))
  }

  /**
   * An update keeps the id and the creation stamp, changes only the fields it is given
   * (an empty argument counts as not given) and always moves `updated_at` to `now`;
   * closing is the update that gives only the status "closed".
   */
  lemma EditedChangesOnlyGiven(i: LegacyIssue, title: Option<string>, description: Option<string>,
                               status: Option<string>, now: Timestamp)
    ensures var e := Edited(i, title, description, status, now);
            e.id == i.id && e.createdAt == i.createdAt && e.updatedAt == IsoFormat(now)
    ensures var e := Edited(i, title, description, status, now);
            e.title == (if Given(title) then title.value else i.title) &&
            e.description == (if Given(description) then description.value else i.description) &&
            e.status == (if Given(status) then status.value else i.status)
    ensures !Given(title) && !Given(description) && !Given(status) ==>
              Edited(i, title, description, status, now) == i.(updatedAt := IsoFormat(now))
    ensures ClosedIssue(i, now) == Edited(i, None, None, Some("closed"), now)
  {
  }

  /** Replacing the issue at an index by an edit of it keeps every id where it was. */
  lemma EditKeepsIds(issues: seq<LegacyIssue>, k: nat, e: LegacyIssue, id: int)
    requires k < |issues| && e.id == issues[k].id
    ensures IdIndex(issues[k := e], id) == IdIndex(issues, id)
    ensures UniqueIds(issues) ==> UniqueIds(issues[k := e])
  {
    var s := issues[k := e];
    assert forall j :: 0 <= j < |s| ==> s[j].id == issues[j].id;
  }

  /** The database as the `create`, `update` and `close` subcommands read and write it. */
  class LegacyStore {
    var file: DatabaseFile

    constructor (existing: DatabaseFile)
      ensures file == existing
    {
      file := existing;
    }

    function Issues(): seq<LegacyIssue>
      reads this
    {
      Loaded(file)
    }

    /**
     * `create_issue`: appends a new open issue with the next id and writes the database,
     * which replaces a missing or corrupted file with one holding only the new issue.
     */
    method CreateIssue(title: string, description: Option<string>, now: Timestamp) returns (newId: int)
      modifies this
      ensures newId == NextId(old(Issues()))
      ensures file == Database(old(Issues()) + [Created(newId, title, description, now)])
      ensures IdIndex(Issues(), newId) == Some(|old(Issues())|)
    {
      var issues := Issues();
      newId := 1;
      if issues != [] {
        newId := MaxId(issues) + 1;
      }
      var newIssue := Created(newId, title, description, now);
      issues := issues + [newIssue];
      file := Database(issues);
      CreatedIdIsFresh(old(Issues()), title, description, now);
    }

    /**
     * `update_issue`: exit code 1 and nothing written when no issue has the id; otherwise
     * the first issue with the id is edited in place and the database written back.
     */
    method UpdateIssue(id: int, title: Option<string>, description: Option<string>, status: Option<string>,
                       now: Timestamp) returns (code: int)
      modifies this
      ensures !HasId(old(Issues()), id) ==> code == 1 && file == old(file)
      ensures HasId(old(Issues()), id) ==>
                var k := IdIndex(old(Issues()), id).value;
                code == 0 && file == Database(old(Issues())[k := Edited(old(Issues())[k], title, description, status, now)])
    {
      var issues := Issues();
      var index := IdIndex(issues, id);
      if index.None? {
        return 1;
      }
      var issue := issues[index.value];
      if Given(title) {
        issue := issue.(title := title.value);
      }
      if Given(description) {
        issue := issue.(description := description.value);
      }
      if Given(status) {
        issue := issue.(status := status.value);
      }
      issue := issue.(updatedAt := IsoFormat(now));
      file := Database(issues[index.value := issue]);
      code := 0;
    }

    /**
     * `close_issue`: exit code 1 and nothing written when no issue has the id; otherwise
     * the first issue with the id gets status "closed" and a new `updated_at`.
     */
    method CloseIssue(id: int, now: Timestamp) returns (code: int)
      modifies this
      ensures !HasId(old(Issues()), id) ==> code == 1 && file == old(file)
      ensures HasId(old(Issues()), id) ==>
                var k := IdIndex(old(Issues()), id).value;
                code == 0 && file == Database(old(Issues())[k := ClosedIssue(old(Issues())[k], now)])
    {
      var issues := Issues();
      var index := IdIndex(issues, id);
      if index.None? {
        return 1;
      }
      var issue := issues[index.value];
      issue := issue.(status := "closed", updatedAt := IsoFormat(now));
      file := Database(issues[index.value := issue]);
      code := 0;
    }
  }
}
